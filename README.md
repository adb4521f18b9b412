# Condominium back end: reservation rules and their neighbours, in Dafny

This project models the core of a condominium management back end, a Django
REST service. It covers:
- the booking of common areas: one-hour time slots, the booking
  validator, cancellation and status transitions, availability checks;
- the opening-hours rules of the areas and the maintenance toggle;
- property ownership and the house assignment of residents;
- billing transactions, batch charges and income/expense statistics;
- vehicles, the visitor log, communications with read tracking, and intrusion
  alerts.

The Dafny modules follow the source's files: `CommonAreas` models
`apps/common_areas/models.py`, `CommonAreaSerializers` models its
`serializers.py`, and so on. Two helper modules stand in for what the source
gets from Python and Django.
- `Text`: `strip`, ASCII `upper`, `icontains`, `get_full_name`, `strftime('%H:%M')`,
  and the first run of digits that `re.findall` returns.
- `Query`: `filter`, `count`, a stable `order_by` on an integer key, and slicing.

Modelling conventions:
- A time of day is a `Minute` (0..1439). A date is an integer day number. The
  age computation alone uses a calendar date (year, month, day), since it
  compares the fields.
- `today` and `now` are parameters. Nothing reads a clock.
- Money is integer cents.
- Database tables are in-memory stores, one class per table group, updated in place:
  - `Registry`: users, properties and resident links.
  - `ReservationBook`: reservations.
  - `AreaCatalog`: common areas.
  - `Ledger`: transactions.
  - `VisitorBook`: visitor logs.
  - `Bulletin`: communications plus the set of (communication, user) read records.
  - `IntrusionBoard`: intrusion alerts.
- Each view that changes data is a method over its store. Each view that only
  reads is a function, or a method when the source builds its answer in a loop
  or narrows a queryset step by step. Every such method is proved equal to a
  specification function: a loop to the function it computes, a step-by-step
  narrowing to one filter by the conjunction of the tests, ordered as the
  source orders it. The properties are proved about those functions.
- Database uniqueness constraints are invariants of the stores, for example
  `unique_together` on (area, date, start, end) for reservations and on
  (property, resident) for links. An insert that would break one fails with
  an integrity error, as the database would make it fail.

Where the source behaves unexpectedly, the model follows the source:
- Slot availability ignores the area's active and maintenance flags.
- A slot's end wraps past midnight, because the end is taken with `.time()`.
- Hours that cross midnight yield no slots and admit no booking, although
  `is_open_at` accepts them.
- `Reservation.clean` collects every failing check, while the serializer's
  cross-field `validate` stops at the first failure.
- A cancellation runs `save`, hence `clean`. A booking that no longer passes
  `clean` (its resident has since left the property, say) cannot be cancelled, and nothing changes.
- The unique key on (area, date, start, end) counts cancelled rows too.
  Rebooking exactly the hours of a cancelled booking passes validation and
  then fails at the insert.
- Confirming a pending booking through the update serializer does not run the
  overlap check, so it can create an overlap.
- The batch amount's `min_value=0.01` is a float. Slightly above one cent,
  it is compared exactly with the `Decimal` amount, so a one-cent charge is
  refused and two cents is the least accepted amount.
- `batch_create` uses `bulk_create`, which bypasses `Transaction.clean`. The
  charges it builds would pass `clean` anyway.
- `add_resident_to_property_view` passes `move_in_date=None` when the date is
  absent, and the column does not allow nulls.
- `add_resident_to_property_view` does not check for an active assignment
  elsewhere, so through it a resident can hold two active assignments.
- The security list filters to unresolved alerts when the `resolved`
  parameter is missing, empty or `'false'`. Any other value lists everything.

## Model

| member | source | states |
|---|---|---|
| CommonAreas.IsOpenAt | apps/common_areas/models.py:62-72 | closed whenever the area is not available; for same-day hours open iff start <= t <= end, both ends included; for overnight hours open iff t >= start or t <= end |
| CommonAreas.IsAvailable | apps/common_areas/models.py:53-55 | definition: active and not under maintenance; IsOpenAt, AvailableAreas and AreaFieldError state what follows from it |
| CommonAreas.OpenOnlyAtInstant | apps/common_areas/models.py:68-69 | with equal opening and closing times an available area is open at exactly that minute |
| CommonAreas.OvernightOpenAcrossMidnight | apps/common_areas/models.py:70-72 | an available overnight area is open at 00:00, 23:59 and both ends, and closed at every minute strictly between closing and opening |
| CommonAreaSerializers.ValidateCapacity | apps/common_areas/serializers.py:16-22 | a capacity is accepted iff 1 <= c <= 1000 and is then returned unchanged; <= 0 and > 1000 give their own errors (the update serializer's copy at lines 64-70 is identical) |
| CommonAreaSerializers.ValidateCreateHours | apps/common_areas/serializers.py:24-34 | creation refuses exactly equal start and end times and returns the input unchanged otherwise |
| CommonAreaSerializers.ValidateUpdateHours | apps/common_areas/serializers.py:72-80 | an update refuses equal times only when both are supplied, and returns the input unchanged otherwise |
| CommonAreaSerializers.ValidateCheckTime | apps/common_areas/serializers.py:97-99 | every time of day is accepted and returned as given |
| CommonAreaSerializers.UpdateAgreesWithCreateWhenComplete | apps/common_areas/serializers.py:31-32 | with both times supplied the update check and the create check accept the same requests |
| CommonAreaSerializers.CreateAcceptsOvernight | apps/common_areas/serializers.py:29-32 | a creation with start after end (overnight) is accepted; acceptance is exactly start != end |
| CommonAreaViews.ParseAreaType | apps/common_areas/views.py:64-66 | a recognised code is the code of the area type returned |
| CommonAreaViews.ParseAreaTypeRoundTrip | apps/common_areas/views.py:64 | every area type's own code is recognised and maps back to it |
| CommonAreaViews.AreasByType | apps/common_areas/views.py:62-81 | an unknown type code is refused iff no area type has it; otherwise the list equals the stored areas filtered by that type code, in stored order |
| CommonAreaViews.AvailableAreas | apps/common_areas/views.py:85-98 | the list holds exactly the active areas that are not under maintenance, in stored order (the body is one filter) |
| CommonAreaViews.ReservationAreas | apps/common_areas/views.py:102-116 | the list holds exactly the active, non-maintenance areas that require a reservation; it equals the available areas further filtered by the reservation flag |
| CommonAreaViews.ReservationAreasAreAvailable | apps/common_areas/views.py:104-108 | the reservation list is contained in the available list and is no longer |
| CommonAreaViews.CheckAreaAvailability | apps/common_areas/views.py:120-145 | an unknown area is not found; otherwise is_open is `is_open_at`, is_available is the area's availability, and the message says "open" iff both hold |
| CommonAreaViews.MessageFollowsIsOpen | apps/common_areas/views.py:133-144 | since `is_open_at` already requires availability, the message depends on `is_open_at` alone |
| CommonAreaViews.MessagesDiffer | apps/common_areas/views.py:144 | the "open" and "not available" messages for a time differ |
| CommonAreaViews.Toggled | apps/common_areas/views.py:158-159 | the maintenance flag is negated and no other field changes |
| CommonAreaViews.ToggleTwice | apps/common_areas/views.py:159 | toggling twice gives back the original area |
| CommonAreaViews.StatusTextMeansMaintenance | apps/common_areas/views.py:162 | the status text is "en mantenimiento" iff the new flag is set |
| CommonAreaViews.ToggleMaintenance | apps/common_areas/views.py:149-169 | an unknown area is not found and nothing changes; otherwise exactly that area is replaced by its toggled copy and the report carries the new area, its status text and the message |
| Users.CodesAreDistinct | apps/users/models.py:8-13 | the codes of the user-type enumeration, and those of the resident-type one (lines 40-44), are pairwise distinct |
| Users.AgeFromBirthday | apps/users/models.py:73 | on and after the birthday within a year the age is the plain difference of years |
| Users.Age | apps/users/models.py:70-73 | the difference of years, less one exactly when today falls before the birthday within the year |
| Users.AgeNonNegative | apps/users/models.py:73 | a birth date on or before today gives a non-negative age |
| Users.AgeMonotone | apps/users/models.py:73 | the age never decreases as today advances |
| Users.AgeStepsAtBirthday | apps/users/models.py:73 | within one year the age rises by exactly one from before the birthday to the birthday |
| Users.WithHouseIdentifier | apps/properties/views.py:104-106 | with a resident profile only its house identifier is replaced; without one the user is unchanged |
| UserSerializers.ValidateUserCreate | apps/users/serializers.py:59-70 | a non-resident passes unchanged; a resident without resident_type is refused first, then one without birth_date; acceptance is exactly that |
| UserSerializers.NormalizeEmail | apps/users/serializers.py:82 | an address whose stripped form has no `@` is kept as given; otherwise the stripped address with the part before its last `@` kept and the part after it lower-cased |
| UserSerializers.NormalizeSplitAddress | apps/users/serializers.py:82 | for every address made of a local part, an `@` and a domain without `@`, with nothing to strip, only the domain is lower-cased (so "ana@EXAMPLE.COM" is stored as "ana@example.com") |
| UserSerializers.NormalizeEmailIdempotent | apps/users/serializers.py:82 | normalising a stored address again changes nothing |
| UserSerializers.CreateUser | apps/users/serializers.py:72-100 | the user carries the given fields, the email normalised as `create_user` does, and a profile of the given type, phone defaulting to empty; it has a resident profile iff the type is resident and both resident fields are present, with house identifier defaulting to empty |
| UserSerializers.ValidatedResidentGetsResidentInfo | apps/users/serializers.py:64-68 | every resident that passes validation is created with a resident profile |
| UserSerializers.ValidateAssignHouse | apps/users/serializers.py:102-116 | accepted iff the property exists; relationship defaults to 'resident' and the primary flag to false |
| UserViews.ParseUserType | apps/users/views.py:59-61 | a recognised code is that type's code, and an unrecognised one is no type's code |
| UserViews.ParseUserTypeRoundTrip | apps/users/views.py:59 | every user type's code is recognised and maps back to it |
| UserViews.UsersByType | apps/users/views.py:57-76 | an unknown type is refused iff no user type has that code; otherwise exactly the users whose profile has that type are listed |
| UserViews.UpdatedProfile | apps/users/views.py:114-123 | each of first name, last name, email and phone is replaced when supplied and kept otherwise; the phone only when a profile exists; nothing else changes |
| UserViews.UpdateUserProfile | apps/users/views.py:105-130 | an unknown user is not found and nothing changes; otherwise exactly that user becomes the updated one |
| UserViews.UpsertResidentProfile | apps/users/views.py:147-162 | with no resident profile a new one is made from the supplied fields (type and birth date required, house identifier defaulting to empty); with one, only the supplied fields are replaced |
| UserViews.WithResidentInfo | apps/users/views.py:148-162 | the user's resident profile becomes the given one and nothing else changes |
| UserViews.CreateResidentProfile | apps/users/views.py:134-169 | unknown user, missing profile and non-resident are refused in that order with no change; otherwise the result is the upsert and only that user's resident profile changes |
| UserViews.FirstActiveIndex | apps/users/views.py:204-206 | the index of the first active link of the resident |
| UserViews.AssignHouseKeepsSingleActive | apps/users/views.py:204-214 | appending a link for a resident with no active one keeps every resident at most one active link |
| UserViews.MovedOut | apps/users/views.py:268-269 | the link becomes inactive with move-out today and nothing else changes |
| UserViews.MoveOutKeepsInvariants | apps/users/views.py:267-270 | moving a link out keeps the (property, resident) pairs unique and at most one active link per resident |
| UserViews.RemoveHouseClearsAssignment | apps/users/views.py:256-270 | with at most one active link per resident, removing the house leaves the resident with no active link |
| UserViews.AssignHouseTarget | apps/users/views.py:175-211 | the checks in source order: unknown user, no profile, non-resident, missing or zero property id, unknown property, an active assignment anywhere (reporting its property's identifier), then an existing pair (integrity error); success iff none applies |
| UserViews.AssignHouse | apps/users/views.py:173-236 | on refusal nothing changes; on success the state and report are `AddedAssignment`; at most one active link per resident is preserved |
| UserViews.ApplyAssignment | apps/users/views.py:213-235 | appends an active link with relationship defaulting to 'resident', primary flag to false and move-in today, sets the house identifier to the property's full identifier, and keeps the store's invariants |
| UserViews.RemoveHouse | apps/users/views.py:240-279 | unknown user, missing profile, non-resident and no active assignment are refused in that order with no change; otherwise the first active link is moved out, the house identifier cleared and the property's identifier returned; with at most one active link per resident, none remains |
| UserViews.WithoutHouse | apps/users/views.py:288-296 | the list holds exactly the residents with no active link, in input order |
| UserViews.ResidentsWithoutHouse | apps/users/views.py:283-307 | the loop's output is `WithoutHouse` |
| UserViews.HouseEntriesShape | apps/users/views.py:315-329 | there is one entry per active link, and the k-th entry pairs the k-th active link's resident with its property's id, identifier, relationship, primary flag and move-in date |
| UserViews.ResidentsWithHouse | apps/users/views.py:311-335 | the loop's output is `HouseEntries` |
| Properties.FullIdentifier | apps/properties/models.py:54-58 | "<house> - Bloque <block>" followed by ", Piso <floor>" exactly when the floor is non-empty |
| Properties.IsPropertyAvailable | apps/properties/models.py:68-70 | definition: status 'available'; NewProperty and WithoutOwner state when it holds |
| Properties.FullIdentifierStartsWithHouseNumber | apps/properties/models.py:57-58 | every full identifier starts with the house number |
| Properties.OwnerName | apps/properties/models.py:61-65 | the owner's full name, or "Sin propietario asignado" when there is no owner |
| Properties.NewProperty | apps/properties/models.py:37 | a new property has no owner and status 'available' unless one is given |
| Properties.NewLink | apps/properties/models.py:85-86 | a new resident link is active and has no move-out date |
| Properties.AppendKeepsPairsUnique | apps/properties/models.py:96 | appending a link whose (property, resident) pair is new keeps the pairs unique |
| PropertyViews.DropLinksOf | apps/properties/views.py:68 | deleting a property removes exactly its own resident rows (cascade) |
| PropertyViews.DropLinksKeepsPairsUnique | apps/properties/models.py:96 | removing the rows of one property keeps the (property, resident) pairs unique |
| PropertyViews.DestroyProperty | apps/properties/views.py:52-72 | refused with an owner, then with an active resident, with no change; otherwise exactly that property and its rows go, and the house number is returned |
| PropertyViews.WithOwner | apps/properties/views.py:99-100 | the owner is set and the status becomes 'occupied'; nothing else changes |
| PropertyViews.WithoutOwner | apps/properties/views.py:137-138 | the owner is cleared and the status becomes 'available'; nothing else changes |
| PropertyViews.AssignOwnerKeepsOwnersDistinct | apps/properties/views.py:92-101 | assigning a user who owns nothing keeps every user the owner of at most one property |
| PropertyViews.AssignOwnerGuardNeeded | apps/properties/views.py:92-96 | without the guard a user can end up owning two properties |
| PropertyViews.RemoveOwnerKeepsOwnersDistinct | apps/properties/views.py:137-139 | clearing an owner keeps every user the owner of at most one property |
| PropertyViews.SameHouseNumbersKeepUnique | apps/properties/models.py:16 | changing a property's owner or status keeps the house numbers unique |
| PropertyViews.AssignOwner | apps/properties/views.py:76-113 | unknown property, unknown user, non-resident and a user who already owns any property (this one included) are refused with no change; otherwise owner and status 'occupied' are set, overwriting a previous owner, and the owner's house identifier becomes the full identifier when a resident profile exists |
| PropertyViews.RemoveOwner | apps/properties/views.py:117-146 | unknown property and no owner are refused with no change; otherwise the owner's house identifier is cleared when a resident profile exists, owner removed, status 'available', and the former owner's name returned |
| PropertyViews.AddResident | apps/properties/views.py:183-223 | unknown property, unknown user, non-resident and a resident already active here are refused; a missing move-in date or an existing inactive row fails the insert; otherwise an active link is appended and the house identifier set when a resident profile exists |
| PropertyViews.AddResidentAllowsSecondActiveAssignment | apps/properties/views.py:199 | the check covers only this property, so a resident active elsewhere gains a second active assignment |
| PropertyViews.ParsePropertyStatus | apps/properties/views.py:152-154 | a recognised code is that status's code, and an unrecognised one is no status's code |
| PropertyViews.ParsePropertyStatusRoundTrip | apps/properties/views.py:152 | every status code is recognised and maps back to its status |
| PropertyViews.PropertiesByStatus | apps/properties/views.py:150-166 | an unknown status is refused iff no status has that code; otherwise exactly the properties with that status are listed |
| PropertyViews.StatusCountsSum | apps/properties/views.py:240-245 | the counts per status add up to the number of properties |
| PropertyViews.Stats | apps/properties/views.py:227-247 | with_owner plus without_owner, and the per-status counts, each add up to the total; the active-resident count is bounded by the links; with_owner is 0 iff no property has an owner |
| Reservations.TouchingDoNotOverlap | apps/reservations/serializers.py:152-164 | an interval ending at m and one starting at m do not overlap, in either order |
| Reservations.OverlapsSymmetric | apps/reservations/serializers.py:152-164 | the overlap test gives the same answer with its two intervals swapped |
| Reservations.CleanErrors | apps/reservations/models.py:75-109 | a key is in the error dictionary iff its check fails: past date, start not before end, outside the area's hours, resident neither owner nor active resident |
| Reservations.CleanCollectsAllErrors | apps/reservations/models.py:75-109 | the checks do not stop at the first failure: a reservation failing all four gets all four keys |
| Reservations.Clean | apps/reservations/models.py:75-109 | the method's error set is the one described by CleanErrors, and it is empty iff no check fails |
| Reservations.Save | apps/reservations/models.py:111-113 | the row is written unchanged iff clean raises nothing; otherwise saving fails with exactly clean's errors |
| Reservations.DurationMinutes | apps/reservations/models.py:116-123 | 0 when either time is missing; otherwise start plus the duration is end, and the duration is positive iff start is before end |
| Reservations.CanBeCancelled | apps/reservations/models.py:136-151 | true iff the status is neither cancelled nor completed and the date is later than today, or is today with the start still ahead |
| Reservations.SlotEnd | apps/reservations/models.py:164-165 | a slot ends an hour after its start, wrapping past midnight for starts from 23:00 |
| Reservations.BuildSlot | apps/reservations/models.py:164-190 | one iteration's slot: occupied, past and available as the function MakeSlot defines them |
| Reservations.GetAvailableTimeSlots | apps/reservations/models.py:153-194 | the loop returns exactly the slot list Slots, and nothing for a past date |
| Reservations.SlotsFromShape | apps/reservations/models.py:161-192 | the k-th slot from s starts 60k minutes after s, starts before closing, ends no later than closing and carries the flags of MakeSlot |
| Reservations.SlotsFrom | apps/reservations/models.py:161-192 | every slot from s on starts at or after s and before closing, and ends no later than closing |
| Reservations.Slots | apps/reservations/models.py:154-192 | no slots for a past date; every slot lies within the opening hours |
| Reservations.SlotsStepByOneHour | apps/reservations/models.py:158-192 | slots start at opening time one hour apart, each ends where the next starts, and none ends after closing |
| Reservations.NoSlotsWhenClosedBeforeOpening | apps/reservations/models.py:161 | when closing is not after opening there are no slots |
| Reservations.SlotFlags | apps/reservations/models.py:168-187 | a slot is occupied iff a confirmed reservation of the area on that date overlaps it, past iff the date is today and it starts no later than now, available iff neither |
| Reservations.OnlyConfirmedOccupy | apps/reservations/models.py:168-174 | reservations that are not confirmed never occupy a slot |
| Reservations.SlotsIgnoreAvailabilityFlags | apps/reservations/models.py:153-194 | the slots do not depend on the area's active or maintenance flag |
| Reservations.SlotCountSameDay | apps/reservations/models.py:161-192 | with no wrap past midnight, an area open from s to closing has (closing - s) / 60 slots |
| Reservations.LateSlotAlwaysKept | apps/reservations/models.py:164-166 | for every area, a slot starting in the last hour of the day before closing is kept, its end wrapped past midnight to before 01:00 |
| Reservations.WrappedLastSlot | apps/reservations/models.py:164-166 | an area open 22:30-23:45 gets two slots, the second ending at 00:30 after wrapping |
| Reservations.AppendFreshKeyKeepsUnique | apps/reservations/models.py:70 | appending a reservation whose (area, date, start, end) key is not taken keeps the keys unique |
| ReservationSerializers.AreaFieldError | apps/reservations/serializers.py:90-98 | no error iff the area exists and is available; "not available" iff it exists but is not |
| ReservationSerializers.PropertyFieldError | apps/reservations/serializers.py:100-106 | no error iff the property exists |
| ReservationSerializers.ResidentFieldError | apps/reservations/serializers.py:108-116 | no error iff the user exists and has a resident profile; "must be a resident" iff the user exists without one |
| ReservationSerializers.DateFieldError | apps/reservations/serializers.py:84-88 | no error iff the date is not before today, and the only error is the past-date one |
| ReservationSerializers.FieldErrorsOf | apps/reservations/serializers.py:84-116 | every failing field reports, at most four errors; empty iff all four fields pass; past date and unavailable area are reported exactly when they occur |
| ReservationSerializers.FirstCrossFieldFailure | apps/reservations/serializers.py:118-166 | the first failure in source order, each error iff its check is the first to fail: reversed interval, then outside opening hours, then not a member, then a confirmed overlap; none iff all four pass |
| ReservationSerializers.ValidateCreate | apps/reservations/serializers.py:84-166 | field errors win; with none, the first cross-field failure is returned as a cross-field error; accepted iff neither occurs, and then the input comes back unchanged with all its records found |
| ReservationSerializers.NoBookingWhenClosedBeforeOpening | apps/reservations/serializers.py:121-136 | an area whose closing is not after its opening admits no booking |
| ReservationSerializers.ConflictMeansConfirmedOverlap | apps/reservations/serializers.py:152-161 | a conflict exists iff some confirmed booking of the area on that date overlaps the requested hours |
| ReservationSerializers.BackToBackAdmitted | apps/reservations/serializers.py:157-158 | a booking ending when the request starts, or starting when it ends, is no conflict |
| ReservationSerializers.UnconfirmedNeverConflict | apps/reservations/serializers.py:155 | pending and cancelled bookings never conflict |
| ReservationSerializers.NewReservation | apps/reservations/serializers.py:168-188 | the new record is confirmed, created by the requester, keeps the requested key, resident and property, with notes empty unless given |
| ReservationSerializers.ValidatedPassesClean | apps/reservations/models.py:75-113 | a request the serializer accepted passes the model's clean, so save does not reject it |
| ReservationSerializers.AppendWithoutConflictKeepsNoOverlap | apps/reservations/serializers.py:152-164 | adding a booking that has no conflict keeps the confirmed bookings free of overlaps |
| ReservationSerializers.CreateReservation | apps/reservations/serializers.py:168-188 | validation errors are returned and change nothing; a taken (area, date, start, end) key fails the insert; otherwise exactly the new record is appended under the next id; the table invariant and the no-overlap property are kept |
| ReservationSerializers.RebookingCancelledSlotHitsUniqueKey | apps/reservations/models.py:70 | rebooking the exact hours of a cancelled booking passes the conflict check but collides with its unique key |
| ReservationSerializers.ValidateSlotQuery | apps/reservations/serializers.py:190-205 | both checks report: the area must exist (its availability is not checked) and the date must not be past |
| ReservationSerializers.ValidateStatus | apps/reservations/serializers.py:225-235 | a completed booking refuses every change, a cancelled one refuses any status but cancelled; otherwise the requested status is accepted |
| ReservationSerializers.NoWayBackToConfirmed | apps/reservations/serializers.py:229-233 | a cancelled or completed booking can never be confirmed again through an update |
| ReservationSerializers.ConfirmingPendingCanCreateOverlap | apps/reservations/serializers.py:218-235 | the update path checks no overlap: there are bookings where confirming a pending one creates an overlap of confirmed bookings |
| ReservationViews.IndexOfId | apps/reservations/views.py:116-118 | a found position holds the booking with that id; not found means no booking has it |
| ReservationViews.ReplaceKeepsInvariants | apps/reservations/views.py:138-139 | replacing a booking by its cancelled version with the same key keeps the unique keys and the no-overlap property |
| ReservationViews.CancelledOnly | apps/reservations/views.py:138 | the cancelled booking differs from the original in its status alone |
| ReservationViews.Destroy | apps/reservations/views.py:116-146 | unknown id is not found; then the access check; then can_be_cancelled; the save succeeds iff clean passes, and then only that booking is replaced by its cancelled version; failures change nothing |
| ReservationViews.ParseReason | apps/reservations/serializers.py:237-239 | no reason is accepted as none; a given reason is trimmed and accepted iff at most 200 characters remain |
| ReservationViews.CancelNotes | apps/reservations/views.py:316 | the new notes start with the old notes, followed by a new line, "Cancelada: " and the reason or the default text |
| ReservationViews.CancelledWithReason | apps/reservations/views.py:315-316 | the saved booking is cancelled with the appended notes, and differs from the original in nothing else |
| ReservationViews.CancelReservation | apps/reservations/views.py:295-326 | not found, then permission, then can_be_cancelled, then the reason's length, in that order; success iff all pass and clean accepts, replacing only that booking; failures change nothing |
| ReservationViews.StrangerRefusedFirst | apps/reservations/views.py:120-125 | a caller who is not staff, not the creator and not the resident is refused |
| ReservationViews.CanAccess | apps/reservations/views.py:115-125 | definition: staff, the creator or the resident; StrangerRefusedFirst, Destroy and CancelReservation state its use |
| ReservationViews.ActiveResidentIdsOf | apps/reservations/views.py:202-206 | exactly the residents with an active link to the property |
| ReservationViews.AppendNew | apps/reservations/views.py:208-210 | the accumulated list is kept as a prefix, the result holds exactly the old and new ids, and no id is added twice |
| ReservationViews.ResidentIdsOfShape | apps/reservations/views.py:196-210 | the collected residents are distinct, the owner comes first when there is one, and they are exactly the owner and the active residents |
| ReservationViews.ResidentIdsOf | apps/reservations/views.py:196-210 | the owner comes first when there is one; the ids are exactly the owner and the property's active residents |
| ReservationViews.EntriesForShape | apps/reservations/views.py:212-221 | no more entries than ids; every entry is a listed user of type resident, flagged owner iff it is the owner; every listed user of type resident has an entry |
| ReservationViews.EntriesFor | apps/reservations/views.py:212-221 | no more entries than ids, each for a listed user of type resident |
| ReservationViews.EntriesForDistinct | apps/reservations/views.py:196-221 | ids listed once each give entries with distinct ids |
| ReservationViews.ResidentIdsAreUsers | apps/reservations/views.py:196-210 | every collected resident is a stored user |
| ReservationViews.CollectResidentIds | apps/reservations/views.py:196-210 | the first loop yields the owner-first, duplicate-free resident list ResidentIdsOf |
| ReservationViews.CollectEntries | apps/reservations/views.py:212-221 | the second loop yields exactly the entries EntriesFor describes |
| ReservationViews.ResidentsByProperty | apps/reservations/views.py:187-230 | an unknown property is refused, and only then; otherwise the entries for the collected residents, no id listed twice |
| ReservationViews.AvailableCount | apps/reservations/views.py:259 | the count is at most the number of slots and is 0 iff no slot is available |
| ReservationViews.DayFor | apps/reservations/views.py:503-510 | a day's entry has its date, no more available than total slots, and is fully booked iff none is available |
| ReservationViews.DayForCounts | apps/reservations/views.py:503-510 | the total is the number of the day's slots, the available count the number of available slots, and fully booked holds iff no slot is available |
| ReservationViews.CheckAvailability | apps/reservations/views.py:476-526 | an unknown area is refused, and only then; otherwise the loop returns the per-date entries AvailabilityFrom |
| ReservationViews.AvailabilityShape | apps/reservations/views.py:500-512 | one entry per date from the later of the first date and today up to the last, in ascending order, each the DayFor entry of its date |
| ReservationViews.AvailabilityDates | apps/reservations/views.py:500-514 | one entry per date from the later of the first date and today up to the last, ascending |
| ReservationViews.AvailabilityCounts | apps/reservations/views.py:502-510 | every entry is the DayFor entry of its date, has no more available than total slots and is fully booked exactly when none is available |
| ReservationViews.BuildDay | apps/reservations/views.py:502-510 | one iteration's entry equals DayFor: the day's slot count and its available count |
| ReservationViews.DateTimeKeyIsLexicographic | apps/reservations/views.py:461 | the sort key orders bookings exactly as the pair (date, start time) does |
| ReservationViews.UpcomingReservations | apps/reservations/views.py:454-466 | the earliest 20 upcoming bookings: confirmed and not before today, in (date, start) order, min(20, candidates) of them drawn from the candidates, every candidate left out no earlier than any kept; exactly the candidates when there are at most 20 |
| Billing.CategoryFailure | apps/billing/models.py:109-113 | a set category fails iff its type differs from the transaction's, with the error naming the transaction's kind |
| Billing.Clean | apps/billing/models.py:101-120 | the first failure in order: a set amount not positive, then a category of the other kind, then an income without a property; clean iff none applies |
| Billing.ExpenseWithoutPropertyIsClean | apps/billing/models.py:116-120 | an expense with a positive amount and an expense category is clean without a property |
| Billing.IncomeWithoutPropertyIsRefused | apps/billing/models.py:116-120 | an income without a property is refused with the property error even when amount and category are right |
| Billing.Save | apps/billing/models.py:122-124 | the record is stored unchanged iff clean raises nothing; otherwise saving fails with clean's error |
| Billing.NewTransaction | apps/billing/models.py:68-73 | a new record takes the given status or pending, is issued today and has no payment date |
| BillingViews.BatchErrors | apps/billing/serializers.py:43-51 | every field is checked: an error for the category iff it is not an existing income category, for the amount iff it is not between 0.02 (the float bound 0.01 refuses one cent) and the ten-digit maximum, for the concept iff it is missing, blank or over 150 characters |
| BillingViews.OneCentRefused | apps/billing/serializers.py:48 | a one-cent amount draws an amount error and a two-cent amount does not |
| BillingViews.BatchFor | apps/billing/views.py:55-72 | one charge per property, in the order of the properties, numbered consecutively from the first id |
| BillingViews.BatchChargesAreClean | apps/billing/models.py:101-120 | every charge of a batch with an income category and a positive amount passes the model's clean |
| BillingViews.BatchIdsFresh | apps/billing/views.py:74 | records numbered consecutively from the counter keep every id below the new counter and all ids distinct |
| BillingViews.BuildBatch | apps/billing/views.py:61-72 | the loop builds exactly the batch BatchFor |
| BillingViews.BatchCreate | apps/billing/views.py:37-80 | an invalid request is refused with its field errors and stores nothing; otherwise exactly the batch for all properties is appended, the counter advances by their number, and that number is returned |
| BillingViews.Stats | apps/billing/views.py:82-119 | the balance is total income minus total expense, and the pending count is bounded by the number of transactions |
| BillingViews.SumOf | apps/billing/views.py:101-104 | zero when no transaction of that kind has an amount; non-negative when their amounts are |
| BillingViews.PendingIncomes | apps/billing/views.py:105 | zero exactly when no transaction is a pending income |
| BillingViews.PendingIncomesBounded | apps/billing/views.py:104 | there are no more pending incomes than transactions |
| BillingViews.StatsAppend | apps/billing/views.py:101-109 | every figure of two lists together is the sum of their figures |
| BillingViews.NoTransactionsNoFigures | apps/billing/views.py:107-110 | with no transactions every figure is 0 (a missing sum counts as 0) |
| BillingViews.ExpenseStatusIrrelevant | apps/billing/views.py:101-105 | changing the status of an expense changes no figure |
| BillingViews.CleanTotalsNonNegative | apps/billing/models.py:105-106 | when every transaction passed clean with an amount set, both totals are non-negative |
| BillingViews.UniformPendingIncomes | apps/billing/views.py:101-105 | pending incomes all of one amount sum to that amount times their number, with no expense and all of them pending |
| BillingViews.BatchRaisesIncome | apps/billing/views.py:55-80 | a batch adds amount times the number of properties to income, nothing to expense, and one pending income per property |
| VehicleSerializers.ValidatePlate | apps/vehicles/serializers.py:27-31 | refused iff shorter than three characters; otherwise the upper-cased plate, of the same length and with no lower-case letter left |
| VehicleSerializers.PlateValidationIdempotent | apps/vehicles/serializers.py:27-31 | an accepted plate is accepted again unchanged |
| VehicleSerializers.ValidateYear | apps/vehicles/serializers.py:33-39 | accepted unchanged iff between 1900 and next year, both included |
| VehicleSerializers.ValidateOwnerId | apps/vehicles/serializers.py:17-25 | accepted iff the user exists and has a resident profile |
| VehicleSerializers.CreateErrors | apps/vehicles/serializers.py:17-39 | every field validator runs, the plate's on the trimmed value, and a field is reported iff its validator fails |
| VehicleSerializers.CreateVehicle | apps/vehicles/serializers.py:41-46 | refused with all the field errors iff there are any; otherwise an active vehicle of the given resident owner, with the trimmed, upper-cased plate, a year in range and the other fields as given |
| VehicleViews.HouseNumber | apps/vehicles/views.py:71-85 | "Sin casa" without resident info or with an empty identifier; otherwise the first run of digits, or the stripped identifier when it has no digit |
| VehicleViews.LeadingDigitRun | apps/vehicles/views.py:80-83 | for every identifier that starts with a maximal run of digits, that run is the house number |
| VehicleViews.HouseNumberOfIdentifier | apps/vehicles/views.py:80-83 | the identifier "12 - Bloque A" shows house number 12 |
| VehicleViews.ResidentsForVehicles | apps/vehicles/views.py:62-95 | one row per user of type resident, in order, each with the name and the house number |
| VehicleViews.ParseVehicleType | apps/vehicles/views.py:101-103 | a recognised code is the code of the type it yields |
| VehicleViews.ParseVehicleTypeRoundTrip | apps/vehicles/views.py:101-103 | every type parses from its own code, and exactly the three codes parse |
| VehicleViews.VehiclesByType | apps/vehicles/views.py:99-112 | an unknown type is refused iff it does not parse; otherwise exactly the active vehicles of that type |
| VehicleViews.SearchVehicles | apps/vehicles/views.py:185-209 | a blank query is refused, and only then; otherwise exactly the active vehicles whose plate, brand, model or owner's first or last name contains the trimmed query, ignoring case |
| VehicleViews.VehicleStatsOf | apps/vehicles/views.py:213-222 | the total equals the active count, and active plus inactive is the number of vehicles |
| VehicleViews.TypeCountsSum | apps/vehicles/views.py:224-230 | the three per-type counts add up to the number of active vehicles |
| Visitors.DestinationDisplay | apps/visitor_control/models.py:89-94 | the property's full identifier when there is a property, else the area's name when there is an area, else the fixed text |
| Visitors.PropertyDestinationWins | apps/visitor_control/models.py:90-93 | with a property set, an area given alongside it does not change the destination shown |
| Visitors.NewLog | apps/visitor_control/models.py:42-78 | a new log is inside, checked in now, not checked out, with the given reason or the family visit |
| VisitorSerializers.ValidateVisitor | apps/visitor_control/serializers.py:79-92 | refused iff both a property and an area are given; otherwise the data comes back unchanged |
| VisitorSerializers.ZeroOrOneDestinationAccepted | apps/visitor_control/serializers.py:84-90 | no destination, or exactly one, is accepted |
| VisitorSerializers.CreateVisitorLog | apps/visitor_control/serializers.py:94-108 | refused iff validation fails, storing nothing; otherwise exactly the new log is appended under the next id, registered by the requester, with a vehicle iff vehicle data was given |
| VisitorViews.ActiveIndex | apps/visitor_control/views.py:99-100 | a found position holds the active log with that id; none is found iff no active log has it |
| VisitorViews.CheckedOut | apps/visitor_control/views.py:107-108 | the checked-out log is no longer active and has the check-out time stamped; nothing else differs |
| VisitorViews.CheckOut | apps/visitor_control/views.py:97-116 | fails iff no active log has the id, changing nothing; otherwise only that log is replaced by its checked-out version |
| VisitorViews.CheckOutTwiceFails | apps/visitor_control/views.py:99-104 | after a check-out the same log is no longer found active, so a second check-out fails |
| VisitorViews.ListLogs | apps/visitor_control/views.py:28-55 | exactly the active logs (all logs when include_inactive is "true") matching the search when one is given, each as often as stored, newest check-in first: equal to one filter by the shown-log test, sorted |
| VisitorViews.NarrowedLogsAreOneFilter | apps/visitor_control/views.py:28-53 | the step-by-step narrowing equals one filter by the active (or any) test and the search test together |
| Security.IndexOfLog | apps/security/views.py:62 | a found position holds the alert with that id; none is found iff no alert has it |
| Security.Resolved | apps/security/views.py:64-71 | an already resolved alert is unchanged; otherwise it becomes resolved by the caller, and nothing else differs |
| Security.ResolveIdempotent | apps/security/views.py:64-67 | resolving again, by anyone, changes nothing and keeps the first resolver |
| Security.MarkResolved | apps/security/views.py:60-79 | an unknown alert is not found and nothing changes; otherwise the alert is replaced by its resolved version, with a flag saying whether it was already resolved |
| Security.ListAlerts | apps/security/views.py:23-35 | exactly the stored alerts, unresolved only when the flag is missing, empty or "false", matching the camera when one is given, newest detection first: equal to one filter by the shown-alert test, sorted, and a permutation of the narrowed queryset |
| Security.NarrowedAlertsAreOneFilter | apps/security/views.py:23-33 | the step-by-step narrowing equals one filter by the resolved and camera tests together |
| Communications.NewCommunication | apps/communications/models.py:25-55 | unset type, priority and audience take general, medium and all residents; the record is active, unpublished, created now by its author |
| Communications.Stamped | apps/communications/models.py:70-73 | an existing stamp is kept; an active record without one is stamped now; an inactive one stays unstamped; nothing else changes |
| Communications.StampIdempotent | apps/communications/models.py:71 | saving again never moves an existing stamp |
| Communications.SavedActiveIsPublished | apps/communications/models.py:71-72 | an active communication is published once saved |
| Communications.Save | apps/communications/models.py:70-73 | the stored record becomes its stamped version; the read records and the other communications are unchanged |
| CommunicationSerializers.ValidateTitle | apps/communications/serializers.py:47-52 | accepted iff at least 5 characters remain after trimming, and then the trimmed title is kept |
| CommunicationSerializers.ValidateMessage | apps/communications/serializers.py:54-59 | accepted iff at least 10 characters remain after trimming, and then the trimmed message is kept |
| CommunicationSerializers.ValidationIdempotent | apps/communications/serializers.py:47-59 | an accepted title or message is accepted again unchanged |
| CommunicationSerializers.ReadersOf | apps/communications/serializers.py:30-31 | exactly the users with a read record for the communication |
| CommunicationSerializers.ReadCountAfterRead | apps/communications/models.py:86 | a new read record raises the read count by one; a repeated one leaves it unchanged |
| CommunicationSerializers.ReadCount | apps/communications/serializers.py:30-31 | zero exactly when nobody has a read record for the communication |
| CommunicationSerializers.IsReadByUser | apps/communications/serializers.py:33-37 | false without an authenticated caller; otherwise true iff the caller has a read record |
| CommunicationSerializers.CreateErrors | apps/communications/serializers.py:47-59 | both validators run, and each failing field is reported |
| CommunicationSerializers.CreateCommunication | apps/communications/views.py:68-69 | refused with all field errors iff there are any, storing nothing; otherwise the new record with the trimmed title and message, authored by the caller and stamped now, is stored under the next id |
| CommunicationViews.MarkAsRead | apps/communications/views.py:125-145 | an unknown communication is not found; otherwise the caller's read record exists afterwards, and the result says whether it was created |
| CommunicationViews.MarkAsReadTwice | apps/communications/views.py:131-134 | marking twice leaves the same read records as marking once |
| CommunicationViews.GetObject | apps/communications/views.py:81-90 | fetching a communication records a read for the caller; an unknown one is not found and records nothing |
| CommunicationViews.Patched | apps/communications/views.py:92-102 | a patch sets the fields it gives and keeps the others; author, creation time and stamp are read-only |
| CommunicationViews.Update | apps/communications/views.py:92-102 | the fetch records a read even when the caller, not being the author, is refused; only the author's patch is saved, through save |
| CommunicationViews.Destroy | apps/communications/views.py:104-121 | the same fetch and author check; the author's delete keeps the record and only makes it inactive |
| CommunicationViews.DestroyedNotUnread | apps/communications/views.py:192-196 | a soft-deleted communication is no longer unread for anyone |
| CommunicationViews.UnreadIds | apps/communications/views.py:192-196 | exactly the active communications the user has no read record for |
| CommunicationViews.UnreadCountAfterRead | apps/communications/views.py:192-196 | reading an active unread communication lowers the unread count by one; any other read leaves it |
| CommunicationViews.UnreadCount | apps/communications/views.py:192-196 | zero exactly when the user has read every active communication |
| CommunicationViews.NarrowCommunications | apps/communications/views.py:30-61 | equal to one filter of the table by ListedBy, keeping the table's order and multiplicity: exactly the rows that are active, not expired and pass every given type, priority, audience and text filter |
| CommunicationViews.ListCommunications | apps/communications/views.py:30-61 | the same rows sorted newest first as the model's default ordering puts them, a permutation of the filtered table |
| CommunicationViews.NarrowedByTypeIsOneFilter | apps/communications/views.py:31-36 | active rows narrowed by the type when given equal one filter by both tests |
| CommunicationViews.NarrowedByPriorityIsOneFilter | apps/communications/views.py:31-41 | the priority step adds its test to the same single filter |
| CommunicationViews.NarrowedByAudienceIsOneFilter | apps/communications/views.py:31-46 | the audience step adds its test to the same single filter |
| CommunicationViews.NarrowedBySearchIsOneFilter | apps/communications/views.py:31-53 | the text-search step adds its test to the same single filter |
| CommunicationViews.NarrowingIsOneFilter | apps/communications/views.py:31-59 | the whole narrowing, expiry last, equals one filter by ListedBy |
| Text.Strip | apps/communications/serializers.py:48 | the result is no longer than the input and neither starts nor ends with whitespace |
| Text.StripIdempotent | apps/communications/serializers.py:52 | trimming a trimmed string changes nothing |
| Text.StripIsInfix | apps/communications/serializers.py:48 | the trimmed string is a slice of the input with only whitespace cut at both ends |
| Text.ToUpper | apps/vehicles/serializers.py:31 | same length, each character upper-cased |
| Text.ToUpperIdempotent | apps/vehicles/serializers.py:31 | upper-casing twice is upper-casing once |
| Text.ToLowerIdempotent | apps/users/serializers.py:82 | lower-casing twice is lower-casing once |
| Text.LastIndexOf | apps/users/serializers.py:82 | none iff the character does not occur; otherwise a position holding it with none after it |
| Text.LastIndexOfAt | apps/users/serializers.py:82 | an occurrence with none after it is the last one |
| Text.ContainsFrom | apps/vehicles/views.py:194-200 | the scan finds the pattern iff it occurs at some position from the start position on |
| Text.FirstDigitRun | apps/vehicles/views.py:80-83 | none iff there is no digit; otherwise the first maximal run of digits |
| Text.FormatTime | apps/common_areas/views.py:141 | five characters "HH:MM" whose digits read back as the hour and the minute of the time |
| Query.Filter | apps/communications/views.py:31 | at most as many elements, and exactly the elements satisfying the condition |
| Query.FilterIdempotent | apps/communications/views.py:31-59 | filtering twice by the same condition is filtering once |
| Query.FilterConj | apps/communications/views.py:31-59 | filtering by one condition and then another is filtering once by their conjunction |
| Query.FilterIf | apps/communications/views.py:35-36 | an optional narrowing step, applied only when its parameter is given, is one filter by the accumulated test |
| Query.FilterExt | apps/visitor_control/views.py:28-42 | filters by pointwise equal conditions agree |
| Query.FilterAll | apps/security/views.py:24 | filtering by a condition every element meets changes nothing |
| Query.SortBy | apps/visitor_control/views.py:55 | a permutation of the input, ordered by the key |
| Query.SortByMembers | apps/visitor_control/views.py:55 | sorting keeps exactly the elements of the input |
| Query.Take | apps/reservations/views.py:464 | the first n elements, or all when there are fewer |
| Query.FirstByKey | apps/reservations/views.py:458-464 | the n smallest by key, ascending: min(n, count) elements drawn from the input, every element left out no smaller than any kept |
| Query.TakeSortedKeepsSmallest | apps/reservations/views.py:458-464 | a prefix of a sorted sequence is sorted, a sub-multiset, and no larger than what it leaves out |
| Query.CountSplit | apps/vehicles/views.py:220-221 | counting by a condition and by its negation adds up to the length |

## Left out
- HTTP and REST framework plumbing: responses, status codes, message texts beyond the few the rules depend on, pagination, URL routing, the admin registration and the serializers' field wiring. Validators are functions returning a value or an error.
- Database queries, joins and aggregates are filters and folds over in-memory sequences and maps. Cascades are not modelled, except removing a property's resident links when the property is deleted.
- Concurrency. Each operation is one atomic step. This covers the unlocked overlap check before a reservation insert and the database transaction around the batch insert.
- The clock. `date.today()` and `timezone.now()` are parameters, and the mix of UTC and local time in the cancellation and past-slot checks is not modelled.
- Floating point: the `availability_percentage` of the availability check and the fractional hours of `duration_hours`. Durations are integer minutes.
- `Decimal` money is integer cents. The `max_digits` limit is modelled only for the batch amount.
- Time strings. Slots carry minutes, not "HH:MM" text, and the slot's `display` string is not built. The availability message is the one place where `%H:%M` text is produced.
- Unicode. `upper`, `lower`, `strip` and `icontains` act on ASCII letters and ASCII whitespace only. The `\d+` regular expression is an explicit scan for ASCII digits.
- Trimming of `CharField` input is modelled where a rule depends on it: the cancel reason, the batch concept and description, the communication title and message, and the vehicle licence plate, whose length check and upper-casing see the trimmed value. Other text fields are taken as given.
- Raw request values such as `is_primary_resident` arrive already typed. String-to-boolean parsing and type coercion are not modelled.
- Foreign calls: Supabase photo storage, Firebase push notifications after saving a communication, JWT login and the password hash. File and image fields are also out.
- Thin views that only list, count or serialise records:
  - users: `residents_detail`, `user_stats`, the photo upload;
  - properties: `properties_with_residents`, create and update;
  - reservations: `my_reservations`, `reservations_by_area`, `reservations_by_date`, `reservation_stats`, `available_properties`;
  - vehicles: `change_vehicle_owner`, `vehicles_by_resident`, vehicle destroy;
  - communications: `my_communications`, `urgent_communications`, and the `communication_stats` figures other than `unread_count`;
  - common areas: `search_areas`, `area_types`, `common_area_stats`, and create and destroy beyond their validators.
- The access-control app, the security models and serializers and the vehicle model are record definitions without rules of their own. The property serializers' `validate_owner_id` and `validate_resident_id` only look up the referenced user and check that it is a resident, which the property views' refusals already model; `validate_house_number` refuses a house number already stored, and the model keeps that as the house-number uniqueness invariant of the store (PropertyViews.SameHouseNumbersKeepUnique), since property creation and editing through the generic viewset are plumbing. The billing serializer's validation delegates to the model's `clean` (Billing.Clean), and the batch serializer's field limits are BatchErrors.
- Uniqueness of vehicle plates and of the stored users' usernames: no rule beyond the database constraint depends on them.
- The update of a communication does not re-run the title and message validators, because the detail view uses the read serializer. Apart from that serializer's field wiring (required and blank checks, left out with the rest of the field plumbing), the model applies the patch unvalidated, as the source does.
