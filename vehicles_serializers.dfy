/**
 * Vehicles and the validators of their create and update serializers
 * (`apps/vehicles/serializers.py`).
 */
module VehicleSerializers {
  import opened Base
  import opened Text
  import opened Users

  datatype VehicleType = Light | Heavy | Motorcycle

  function VehicleTypeCode(t: VehicleType): string {
    match t
    case Light => "light"
    case Heavy => "heavy"
    case Motorcycle => "motorcycle"
  }

  datatype Vehicle = Vehicle(
    id: nat,
    licensePlate: string,
    brand: string,
    model: string,
    year: int,
    color: string,
    vehicleType: VehicleType,
    ownerId: nat,
    parkingSpace: string,
    observations: string,
    isActive: bool)

  datatype VehicleField = OwnerField | PlateField | YearField

  /**
   * `validate_license_plate`: fewer than three characters is refused; otherwise
   * the plate is upper-cased. It sees the value after the field's trimming
   * (`CreateErrors` and `CreateVehicle` pass `Strip` of the raw input).
   */
  function ValidatePlate(value: string): (r: Result<string, VehicleField>)
    ensures r.Err? <==> |value| < 3
    ensures r.Err? ==> r.error == PlateField
    ensures r.Ok? ==> r.value == ToUpper(value) && |r.value| == |value|
    ensures r.Ok? ==> forall i :: 0 <= i < |r.value| ==> !('a' <= r.value[i] <= 'z')
  {
    if |value| < 3 then Err(PlateField)
    else
      ToUpperHasNoLower(value);
      Ok(ToUpper(value))
  }

  /** An accepted plate is accepted again unchanged. */
  lemma PlateValidationIdempotent(value: string)
    requires ValidatePlate(value).Ok?
    ensures ValidatePlate(ValidatePlate(value).value) == ValidatePlate(value)
  {
    ToUpperIdempotent(value);
  }

  /** `validate_year` of both serializers: from 1900 to next year, inclusive; the year is returned unchanged. */
  function ValidateYear(value: int, currentYear: int): (r: Result<int, VehicleField>)
    ensures r.Ok? <==> 1900 <= value <= currentYear + 1
    ensures r.Ok? ==> r.value == value
    ensures r.Err? ==> r.error == YearField
  {
    if value < 1900 || value > currentYear + 1 then Err(YearField) else Ok(value)
  }

  /** `validate_owner_id`: the user must exist and be of type resident. */
  function ValidateOwnerId(users: map<nat, User>, value: int): (r: Result<nat, VehicleField>)
    ensures r.Ok? <==> value >= 0 && value as nat in users && IsResidentUser(users[value as nat])
    ensures r.Ok? ==> r.value == value
    ensures r.Err? ==> r.error == OwnerField
  {
    if value < 0 || value as nat !in users then Err(OwnerField)
    else if !IsResidentUser(users[value as nat]) then Err(OwnerField)
    else Ok(value as nat)
  }

  datatype VehicleInput = VehicleInput(
    licensePlate: string,
    brand: string,
    model: string,
    year: int,
    color: string,
    vehicleType: VehicleType,
    ownerId: int,
    parkingSpace: string,
    observations: string)

  /** Every field validator runs; the failing fields are all reported. */
  function CreateErrors(users: map<nat, User>, input: VehicleInput, currentYear: int): (errs: set<VehicleField>)
    ensures OwnerField in errs <==> ValidateOwnerId(users, input.ownerId).Err?
    ensures PlateField in errs <==> ValidatePlate(Strip(input.licensePlate)).Err?
    ensures YearField in errs <==> ValidateYear(input.year, currentYear).Err?
    ensures errs <= {OwnerField, PlateField, YearField}
  {
    var owner := ValidateOwnerId(users, input.ownerId).Err?;
    var plate := ValidatePlate(Strip(input.licensePlate)).Err?;
    var year := ValidateYear(input.year, currentYear).Err?;
    (if owner then {OwnerField} else {}) + (if plate then {PlateField} else {}) + (if year then {YearField} else {})
  }

  /**
   * `VehicleCreateSerializer` validation and `create`: the vehicle is saved
   * with the validated (trimmed, upper-cased) plate, attached to the given owner, and
   * active.
   */
  function CreateVehicle(id: nat, users: map<nat, User>, input: VehicleInput, currentYear: int): (r: Result<Vehicle, set<VehicleField>>)
    ensures r.Err? <==> CreateErrors(users, input, currentYear) != {}
    ensures r.Err? ==> r.error == CreateErrors(users, input, currentYear)
    ensures r.Ok? ==>
      && r.value.id == id
      && r.value.licensePlate == ToUpper(Strip(input.licensePlate))
      && r.value.ownerId == input.ownerId && IsResidentUser(users[r.value.ownerId])
      && 1900 <= r.value.year <= currentYear + 1
      && r.value.isActive
      && r.value.(id := 0, licensePlate := input.licensePlate, isActive := false)
         == Vehicle(0, input.licensePlate, input.brand, input.model, input.year, input.color, input.vehicleType,
                    r.value.ownerId, input.parkingSpace, input.observations, false)
  {
    var errs := CreateErrors(users, input, currentYear);
    if errs != {} then Err(errs)
    else
      var owner := ValidateOwnerId(users, input.ownerId).value;
      Ok(Vehicle(id, ValidatePlate(Strip(input.licensePlate)).value, input.brand, input.model, input.year, input.color,
                 input.vehicleType, owner, input.parkingSpace, input.observations, true))
  }
}
