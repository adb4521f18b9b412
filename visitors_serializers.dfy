/** The create serializer of visitor logs (`apps/visitor_control/serializers.py`). */
module VisitorSerializers {
  import opened Base
  import opened CommonAreas
  import opened Properties
  import opened Visitors

  datatype VisitorInput = VisitorInput(
    fullName: string,
    documentId: string,
    reason: Option<VisitReason>,
    propertyToVisit: Option<Property>,
    areaToVisit: Option<CommonArea>,
    observations: string,
    vehicle: Option<VisitVehicle>)

  datatype VisitorError = BothDestinations

  /** `VisitorLogCreateSerializer.validate`: at most one destination; the data is returned unchanged. */
  function ValidateVisitor(input: VisitorInput): (r: Result<VisitorInput, VisitorError>)
    ensures r.Err? <==> input.propertyToVisit.Some? && input.areaToVisit.Some?
    ensures r.Ok? ==> r.value == input
  {
    if input.propertyToVisit.Some? && input.areaToVisit.Some? then Err(BothDestinations) else Ok(input)
  }

  /** No destination at all, or exactly one, is accepted. */
  lemma ZeroOrOneDestinationAccepted(input: VisitorInput)
    requires input.propertyToVisit.None? || input.areaToVisit.None?
    ensures ValidateVisitor(input).Ok?
  {
  }

  /**
   * Validation and `create`: the log is stored with the requester as
   * `registered_by`, and a vehicle record exactly when vehicle data was
   * supplied.
   */
  method CreateVisitorLog(book: VisitorBook, input: VisitorInput, requester: nat, now: int)
    returns (r: Result<VisitorLog, VisitorError>)
    requires book.Valid()
    modifies book
    ensures book.Valid()
    ensures r.Err? <==> ValidateVisitor(input).Err?
    ensures r.Err? ==> book.logs == old(book.logs) && book.nextId == old(book.nextId)
    ensures r.Ok? ==>
      && r.value == NewLog(old(book.nextId), input.fullName, input.documentId, input.reason, input.propertyToVisit,
                           input.areaToVisit, input.observations, now, Some(requester), input.vehicle)
      && r.value.registeredBy == Some(requester)
      && (r.value.vehicle.Some? <==> input.vehicle.Some?)
      && book.logs == old(book.logs) + [r.value]
      && book.nextId == old(book.nextId) + 1
  {
    var checked := ValidateVisitor(input);
    if checked.Err? {
      return Err(checked.error);
    }
    var data := checked.value;
    var log := NewLog(book.nextId, data.fullName, data.documentId, data.reason, data.propertyToVisit,
                      data.areaToVisit, data.observations, now, Some(requester), None);
    if data.vehicle.Some? {
      log := log.(vehicle := data.vehicle);
    }
    book.logs := book.logs + [log];
    book.nextId := book.nextId + 1;
    r := Ok(log);
  }
}
