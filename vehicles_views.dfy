/**
 * The vehicle views (`apps/vehicles/views.py`): the resident list with house
 * numbers, the type check, the search and the statistics.
 */
module VehicleViews {
  import opened Base
  import opened Text
  import opened Query
  import opened Users
  import opened VehicleSerializers

  const NoHouse := "Sin casa"

  /**
   * The house shown for a resident: "Sin casa" without resident info or with
   * an empty identifier; otherwise the first run of digits in the
   * identifier, or the stripped identifier when it holds no digit.
   */
  function HouseNumber(u: User): (h: string)
    ensures !HasResidentInfo(u) ==> h == NoHouse
    ensures HasResidentInfo(u) ==>
      var ident := u.profile.value.residentInfo.value.houseIdentifier;
      && (ident == [] ==> h == NoHouse)
      && (ident != [] && FirstDigitRun(ident).Some? ==> h == FirstDigitRun(ident).value && h != [] && forall i :: 0 <= i < |h| ==> IsDigit(h[i]))
      && (ident != [] && FirstDigitRun(ident).None? ==> h == Strip(ident))
  {
    if !HasResidentInfo(u) then NoHouse
    else
      var ident := u.profile.value.residentInfo.value.houseIdentifier;
      if ident == [] then NoHouse
      else match FirstDigitRun(ident)
        case Some(n) => n
        case None => Strip(ident)
  }

  /** An identifier that starts with a run of digits shows that run as its house number. */
  lemma LeadingDigitRun(digits: string, rest: string)
    requires digits != [] && forall m :: 0 <= m < |digits| ==> IsDigit(digits[m])
    requires rest == [] || !IsDigit(rest[0])
    ensures FirstDigitRun(digits + rest) == Some(digits)
  {
    var s := digits + rest;
    var r := FirstDigitRun(s);
    assert IsDigit(s[0]);
    var i, j :| && 0 <= i < j <= |s| && r.value == s[i..j]
                && (forall m :: 0 <= m < i ==> !IsDigit(s[m]))
                && (forall m :: i <= m < j ==> IsDigit(s[m]))
                && (j == |s| || !IsDigit(s[j]));
    assert i == 0;
    assert forall m :: 0 <= m < |digits| ==> s[m] == digits[m];
    assert |digits| < |s| ==> s[|digits|] == rest[0];
    assert j == |digits|;
    assert s[0..|digits|] == digits;
  }

  /** A full identifier such as "12 - Bloque A" shows the house number 12. */
  lemma HouseNumberOfIdentifier()
    ensures FirstDigitRun("12 - Bloque A") == Some("12")
  {
    assert "12 - Bloque A" == "12" + " - Bloque A";
    LeadingDigitRun("12", " - Bloque A");
  }

  datatype ResidentRow = ResidentRow(fullName: string, houseInfo: string)

  function RowFor(u: User): ResidentRow {
    ResidentRow(DisplayName(u), HouseNumber(u))
  }

  function IsResident(u: User): bool { IsResidentUser(u) }

  /** `residents_for_vehicles_view`: one row per user of type resident, in order. */
  method ResidentsForVehicles(users: seq<User>) returns (rows: seq<ResidentRow>)
    ensures var residents := Filter(users, IsResident);
      |rows| == |residents| && forall k :: 0 <= k < |rows| ==> rows[k] == RowFor(residents[k])
  {
    var residents := Filter(users, IsResident);
    rows := [];
    var i := 0;
    while i < |residents|
      invariant 0 <= i <= |residents| && |rows| == i
      invariant forall k :: 0 <= k < i ==> rows[k] == RowFor(residents[k])
    {
      rows := rows + [ResidentRow(DisplayName(residents[i]), HouseNumber(residents[i]))];
      i := i + 1;
    }
  }

  /** The type check of `vehicles_by_type_view`. */
  function ParseVehicleType(code: string): (t: Option<VehicleType>)
    ensures t.Some? ==> VehicleTypeCode(t.value) == code
  {
    if code == "light" then Some(Light)
    else if code == "heavy" then Some(Heavy)
    else if code == "motorcycle" then Some(Motorcycle)
    else None
  }

  /** Every type parses from its own code, and only the three codes parse. */
  lemma ParseVehicleTypeRoundTrip(t: VehicleType, code: string)
    ensures ParseVehicleType(VehicleTypeCode(t)) == Some(t)
    ensures ParseVehicleType(code).Some? <==> code in {"light", "heavy", "motorcycle"}
  {
  }

  function IsActiveOfType(t: VehicleType): Vehicle -> bool {
    (v: Vehicle) => v.isActive && v.vehicleType == t
  }

  /** `vehicles_by_type_view`: an unknown code is refused; otherwise the active vehicles of that type. */
  function VehiclesByType(vs: seq<Vehicle>, code: string): (r: Option<seq<Vehicle>>)
    ensures r.None? <==> ParseVehicleType(code).None?
    ensures r.Some? ==> forall v :: v in r.value <==> v in vs && v.isActive && VehicleTypeCode(v.vehicleType) == code
  {
    match ParseVehicleType(code)
    case None => None
    case Some(t) =>
      assert forall u: VehicleType :: VehicleTypeCode(u) == code <==> u == t;
      Some(Filter(vs, IsActiveOfType(t)))
  }

  /** A search hit: the query occurs, ignoring case, in the plate, brand, model or the owner's first or last name. */
  function Matches(owners: map<nat, User>, q: string): Vehicle -> bool {
    (v: Vehicle) =>
      v.isActive
      && (|| ContainsIgnoreCase(v.licensePlate, q)
          || ContainsIgnoreCase(v.brand, q)
          || ContainsIgnoreCase(v.model, q)
          || (v.ownerId in owners && ContainsIgnoreCase(owners[v.ownerId].firstName, q))
          || (v.ownerId in owners && ContainsIgnoreCase(owners[v.ownerId].lastName, q)))
  }

  datatype SearchError = QueryRequired

  /** `search_vehicles_view`: the query is stripped; an empty one is refused. */
  function SearchVehicles(vs: seq<Vehicle>, owners: map<nat, User>, q: Option<string>): (r: Result<seq<Vehicle>, SearchError>)
    ensures r.Err? <==> Strip(q.GetOr("")) == []
    ensures r.Ok? ==> |r.value| <= |vs|
    ensures r.Ok? ==> forall v :: v in r.value <==> v in vs && Matches(owners, Strip(q.GetOr("")))(v)
    ensures r.Ok? ==> forall v :: v in r.value ==> v.isActive
  {
    var query := Strip(q.GetOr(""));
    if query == [] then Err(QueryRequired) else Ok(Filter(vs, Matches(owners, query)))
  }

  /** `vehicle_stats_view` (the display names are not modelled). */
  datatype VehicleStats = VehicleStats(totalVehicles: nat, activeVehicles: nat, inactiveVehicles: nat, light: nat, heavy: nat, motorcycle: nat)

  function IsActiveVehicle(v: Vehicle): bool { v.isActive }
  function IsInactiveVehicle(v: Vehicle): bool { !v.isActive }

  function VehicleStatsOf(vs: seq<Vehicle>): (s: VehicleStats)
    ensures s.totalVehicles == s.activeVehicles
    ensures s.activeVehicles + s.inactiveVehicles == |vs|
  {
    CountSplit(vs, IsActiveVehicle, IsInactiveVehicle);
    VehicleStats(Count(vs, IsActiveVehicle), Count(vs, IsActiveVehicle), Count(vs, IsInactiveVehicle),
                 Count(vs, IsActiveOfType(Light)), Count(vs, IsActiveOfType(Heavy)), Count(vs, IsActiveOfType(Motorcycle)))
  }

  /** The three per-type counts add up to the number of active vehicles. */
  lemma {:induction false} TypeCountsSum(vs: seq<Vehicle>)
    ensures Count(vs, IsActiveOfType(Light)) + Count(vs, IsActiveOfType(Heavy)) + Count(vs, IsActiveOfType(Motorcycle))
         == Count(vs, IsActiveVehicle)
  {
    if vs != [] {
      TypeCountsSum(vs[1..]);
    }
  }
}
