/**
 * The common-area views (`apps/common_areas/views.py`) that hold logic:
 * the type check of `areas_by_type_view`, the available and
 * reservation-required listings, `check_area_availability_view` and
 * `toggle_maintenance_view`.
 */
module CommonAreaViews {
  import opened Base
  import opened Text
  import opened Query
  import opened CommonAreas

  datatype AreaViewError = AreaNotFound | UnknownAreaType

  /** The table of common areas, keyed by primary key. */
  class AreaCatalog {
    var areas: map<nat, CommonArea>

    ghost predicate Valid()
      reads this
    {
      forall id :: id in areas ==> areas[id].id == id
    }

    constructor (initial: map<nat, CommonArea>)
      requires forall id :: id in initial ==> initial[id].id == id
      ensures Valid() && areas == initial
    {
      areas := initial;
    }
  }

  /** The lookup `dict(CommonArea.AREA_TYPES)` makes possible: an area-type code back to its choice. */
  function ParseAreaType(code: string): (t: Option<AreaType>)
    ensures t.Some? ==> AreaTypeCode(t.value) == code
  {
    if code == "salon_social" then Some(SalonSocial)
    else if code == "piscina" then Some(Piscina)
    else if code == "gimnasio" then Some(Gimnasio)
    else if code == "parque_jardin" then Some(ParqueJardin)
    else if code == "cancha_deportiva" then Some(CanchaDeportiva)
    else if code == "zona_bbq" then Some(ZonaBbq)
    else if code == "otro" then Some(Otro)
    else None
  }

  /** Every area type's code is recognised, so the check rejects exactly the unknown codes. */
  lemma ParseAreaTypeRoundTrip(t: AreaType)
    ensures ParseAreaType(AreaTypeCode(t)) == Some(t)
  {
  }

  /** The area's type is stored under `code`. */
  function HasAreaTypeCode(code: string): CommonArea -> bool {
    (a: CommonArea) => AreaTypeCode(a.areaType) == code
  }

  predicate RequiresReservation(a: CommonArea) {
    a.requiresReservation
  }

  /** `areas_by_type_view`: an unknown code is rejected, a known one lists the areas of that type. */
  function AreasByType(areas: seq<CommonArea>, code: string): (r: Result<seq<CommonArea>, AreaViewError>)
    ensures r.Err? <==> (forall t :: AreaTypeCode(t) != code)
    ensures r.Ok? ==> forall a :: a in r.value <==> a in areas && AreaTypeCode(a.areaType) == code
    ensures r.Ok? ==> r.value == Filter(areas, HasAreaTypeCode(code))
  {
    match ParseAreaType(code)
    case None =>
      assert forall t :: AreaTypeCode(t) != code by {
        forall t ensures AreaTypeCode(t) != code {
          ParseAreaTypeRoundTrip(t);
        }
      }
      Err(UnknownAreaType)
    case Some(t) =>
      var ofType := (a: CommonArea) => a.areaType == t;
      assert forall a :: ofType(a) == HasAreaTypeCode(code)(a) by {
        forall a ensures ofType(a) == HasAreaTypeCode(code)(a) {
          ParseAreaTypeRoundTrip(a.areaType);
        }
      }
      FilterExt(areas, ofType, HasAreaTypeCode(code));
      Ok(Filter(areas, ofType))
  }

  /** `available_areas_view`: active areas that are not under maintenance. */
  function AvailableAreas(areas: seq<CommonArea>): (r: seq<CommonArea>)
    ensures forall a :: a in r <==> a in areas && a.isActive && !a.isMaintenance
  {
    Filter(areas, IsAvailable)
  }

  /** `areas_requiring_reservation_view`: the available areas that also require a reservation. */
  function ReservationAreas(areas: seq<CommonArea>): (r: seq<CommonArea>)
    ensures forall a :: a in r <==> a in areas && a.requiresReservation && a.isActive && !a.isMaintenance
    ensures r == Filter(AvailableAreas(areas), RequiresReservation)
  {
    var both := (a: CommonArea) => a.requiresReservation && IsAvailable(a);
    FilterConj(areas, IsAvailable, RequiresReservation, both);
    Filter(areas, both)
  }

  /** The areas needing a reservation are a sub-list of the available ones. */
  lemma ReservationAreasAreAvailable(areas: seq<CommonArea>)
    ensures |ReservationAreas(areas)| <= |AvailableAreas(areas)|
    ensures forall a :: a in ReservationAreas(areas) ==> a in AvailableAreas(areas)
  {
    ReservationAreasSubCount(areas);
  }

  lemma {:induction false} ReservationAreasSubCount(areas: seq<CommonArea>)
    ensures |Filter(areas, (a: CommonArea) => a.requiresReservation && IsAvailable(a))| <= |Filter(areas, IsAvailable)|
  {
    if areas != [] {
      ReservationAreasSubCount(areas[1..]);
    }
  }

  /** What `check_area_availability_view` reports. */
  datatype AvailabilityReport = AvailabilityReport(isOpen: bool, isAvailable: bool, message: string)

  function AvailabilityMessage(open: bool, t: Minute): string {
    "El área " + (if open then "está abierta" else "no está disponible") + " a las " + FormatTime(t)
  }

  /** `check_area_availability_view`: the message says "open" iff the area is open at that time and available. */
  function CheckAreaAvailability(areas: map<nat, CommonArea>, areaId: nat, t: Minute): (r: Result<AvailabilityReport, AreaViewError>)
    ensures areaId !in areas <==> r == Err(AreaNotFound)
    ensures r.Ok? ==>
              && r.value.isOpen == IsOpenAt(areas[areaId], t)
              && r.value.isAvailable == IsAvailable(areas[areaId])
              && r.value.message == AvailabilityMessage(IsOpenAt(areas[areaId], t) && IsAvailable(areas[areaId]), t)
  {
    if areaId !in areas then Err(AreaNotFound)
    else
      var a := areas[areaId];
      var open := IsOpenAt(a, t);
      Ok(AvailabilityReport(open, IsAvailable(a), AvailabilityMessage(open && IsAvailable(a), t)))
  }

  /** Since `is_open_at` already requires availability, the message depends on `is_open_at` alone. */
  lemma MessageFollowsIsOpen(areas: map<nat, CommonArea>, areaId: nat, t: Minute)
    requires areaId in areas
    ensures CheckAreaAvailability(areas, areaId, t).value.message == AvailabilityMessage(IsOpenAt(areas[areaId], t), t)
  {
  }

  /** The two messages differ, so the caller can tell them apart. */
  lemma MessagesDiffer(t: Minute)
    ensures AvailabilityMessage(true, t) != AvailabilityMessage(false, t)
  {
    assert AvailabilityMessage(true, t)[8] != AvailabilityMessage(false, t)[8];
  }

  /** The area after a maintenance toggle. */
  function Toggled(a: CommonArea): (b: CommonArea)
    ensures b.isMaintenance == !a.isMaintenance
    ensures b.(isMaintenance := a.isMaintenance) == a
  {
    a.(isMaintenance := !a.isMaintenance)
  }

  /** Toggling twice gives back the original area. */
  lemma ToggleTwice(a: CommonArea)
    ensures Toggled(Toggled(a)) == a
  {
  }

  function MaintenanceStatusText(inMaintenance: bool): string {
    if inMaintenance then "en mantenimiento" else "disponible"
  }

  lemma StatusTextMeansMaintenance(b: bool)
    ensures MaintenanceStatusText(b) == "en mantenimiento" <==> b
  {
    if !b {
      assert MaintenanceStatusText(b)[0] != "en mantenimiento"[0];
    }
  }

  datatype ToggleResult = ToggleResult(area: CommonArea, statusText: string, message: string)

  /** `toggle_maintenance_view`: flips the flag of one area in place and reports the new status. */
  method ToggleMaintenance(catalog: AreaCatalog, areaId: nat) returns (r: Result<ToggleResult, AreaViewError>)
    requires catalog.Valid()
    modifies catalog
    ensures catalog.Valid()
    ensures areaId !in old(catalog.areas) ==> r == Err(AreaNotFound) && catalog.areas == old(catalog.areas)
    ensures areaId in old(catalog.areas) ==>
              && catalog.areas == old(catalog.areas)[areaId := Toggled(old(catalog.areas)[areaId])]
              && r.Ok? && r.value.area == catalog.areas[areaId]
              && r.value.statusText == MaintenanceStatusText(catalog.areas[areaId].isMaintenance)
              && r.value.message == "Área \"" + catalog.areas[areaId].name + "\" marcada como " + r.value.statusText
  {
    if areaId !in catalog.areas {
      return Err(AreaNotFound);
    }
    var area := catalog.areas[areaId];
    area := area.(isMaintenance := !area.isMaintenance);
    catalog.areas := catalog.areas[areaId := area];
    var text := MaintenanceStatusText(area.isMaintenance);
    r := Ok(ToggleResult(area, text, "Área \"" + area.name + "\" marcada como " + text));
  }
}
