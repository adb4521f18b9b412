/**
 * Visitor logs (`apps/visitor_control/models.py`): the visit reasons, the
 * destination shown for a log, and the defaults of a new log. The log store
 * is a sequence in the order the rows were inserted.
 */
module Visitors {
  import opened Base
  import opened CommonAreas
  import opened Properties

  datatype VisitReason = FamilyVisit | Delivery | WorkService | TechnicalService | OtherReason

  function VisitReasonCode(r: VisitReason): string {
    match r
    case FamilyVisit => "visita_familiar"
    case Delivery => "delivery"
    case WorkService => "trabajo_servicio"
    case TechnicalService => "servicio_tecnico"
    case OtherReason => "otro"
  }

  datatype VisitVehicleKind = LightVehicle | HeavyVehicle | MotorcycleVehicle

  datatype VisitVehicle = VisitVehicle(licensePlate: string, color: string, model: string, kind: VisitVehicleKind)

  /**
   * A log; the destinations hold the referenced property and area, the
   * vehicle the one-to-one vehicle record when there is one. Times are
   * minutes on one clock.
   */
  datatype VisitorLog = VisitorLog(
    id: nat,
    fullName: string,
    documentId: string,
    reason: VisitReason,
    propertyToVisit: Option<Property>,
    areaToVisit: Option<CommonArea>,
    observations: string,
    checkInTime: int,
    checkOutTime: Option<int>,
    isActive: bool,
    registeredBy: Option<nat>,
    vehicle: Option<VisitVehicle>)

  const DefaultReason := FamilyVisit
  const NoDestination := "Sin Destino Específico"

  /** `get_destination_display`: the property first, then the area, then a fixed text. */
  function DestinationDisplay(log: VisitorLog): (d: string)
    ensures log.propertyToVisit.Some? ==> d == FullIdentifier(log.propertyToVisit.value)
    ensures log.propertyToVisit.None? && log.areaToVisit.Some? ==> d == log.areaToVisit.value.name
    ensures log.propertyToVisit.None? && log.areaToVisit.None? ==> d == NoDestination
  {
    match (log.propertyToVisit, log.areaToVisit)
    case (Some(p), _) => FullIdentifier(p)
    case (None, Some(a)) => a.name
    case (None, None) => NoDestination
  }

  /** A property destination wins over an area given alongside it. */
  lemma PropertyDestinationWins(log: VisitorLog, a: CommonArea)
    requires log.propertyToVisit.Some?
    ensures DestinationDisplay(log.(areaToVisit := Some(a))) == DestinationDisplay(log.(areaToVisit := None))
  {
  }

  /** A new log: inside the condominium, checked in now, not checked out, visiting for family unless a reason is given. */
  function NewLog(id: nat, fullName: string, documentId: string, reason: Option<VisitReason>,
                  propertyToVisit: Option<Property>, areaToVisit: Option<CommonArea>, observations: string,
                  now: int, registeredBy: Option<nat>, vehicle: Option<VisitVehicle>): (log: VisitorLog)
    ensures log.isActive && log.checkOutTime.None? && log.checkInTime == now
    ensures log.reason == reason.GetOr(DefaultReason)
    ensures reason.None? ==> log.reason == FamilyVisit
  {
    VisitorLog(id, fullName, documentId, reason.GetOr(DefaultReason), propertyToVisit, areaToVisit, observations,
               now, None, true, registeredBy, vehicle)
  }

  /** The stored logs; `nextId` is the next primary key. */
  class VisitorBook {
    var logs: seq<VisitorLog>
    var nextId: nat

    ghost predicate Valid()
      reads this
    {
      && (forall i :: 0 <= i < |logs| ==> logs[i].id < nextId)
      && (forall i, j :: 0 <= i < j < |logs| ==> logs[i].id != logs[j].id)
    }

    constructor ()
      ensures Valid() && logs == [] && nextId == 1
    {
      logs := [];
      nextId := 1;
    }
  }
}
