/**
 * Properties and their resident links (`apps/properties/models.py`), and the
 * in-memory store that the property and user views change: users, properties
 * and `PropertyResident` links, with the database's uniqueness constraints
 * as the store's invariant.
 */
module Properties {
  import opened Base
  import opened Users

  /** `Property.STATUS_CHOICES`. */
  datatype PropertyStatus = Available | Occupied | Maintenance | Reserved

  function StatusCode(s: PropertyStatus): string {
    match s
    case Available => "available"
    case Occupied => "occupied"
    case Maintenance => "maintenance"
    case Reserved => "reserved"
  }

  datatype Property = Property(
    id: nat,
    houseNumber: string,
    block: string,
    floor: string,
    owner: Option<nat>,
    status: PropertyStatus)

  /** A `PropertyResident` row: a user living in a property, active until moved out. */
  datatype PropertyResident = PropertyResident(
    propertyId: nat,
    residentId: nat,
    relationship: string,
    isPrimaryResident: bool,
    moveInDate: int,
    moveOutDate: Option<int>,
    isActive: bool)

  /** `__str__`, also used as the display name in the reservation views: house number and block. */
  function ShortIdentifier(p: Property): string {
    p.houseNumber + " - Bloque " + p.block
  }

  /** `full_identifier`: the short form, followed by the floor when one is recorded. */
  function FullIdentifier(p: Property): (r: string)
    ensures p.floor != "" ==> r == ShortIdentifier(p) + ", Piso " + p.floor
    ensures p.floor == "" ==> r == ShortIdentifier(p)
  {
    if p.floor != "" then p.houseNumber + " - Bloque " + p.block + ", Piso " + p.floor
    else p.houseNumber + " - Bloque " + p.block
  }

  /** The full identifier always starts with the house number. */
  lemma FullIdentifierStartsWithHouseNumber(p: Property)
    ensures |FullIdentifier(p)| >= |p.houseNumber| && FullIdentifier(p)[..|p.houseNumber|] == p.houseNumber
  {
    var r := FullIdentifier(p);
    if p.floor != "" {
      assert r == p.houseNumber + (" - Bloque " + p.block + ", Piso " + p.floor);
    } else {
      assert r == p.houseNumber + (" - Bloque " + p.block);
    }
  }

  const NoOwnerName := "Sin propietario asignado"

  /** `owner_name`: the owner's full name, or the fixed text when there is no owner. */
  function OwnerName(owner: Option<User>): (r: string)
    ensures owner.None? ==> r == NoOwnerName
    ensures owner.Some? ==> r == DisplayName(owner.value)
  {
    match owner
    case None => NoOwnerName
    case Some(u) => DisplayName(u)
  }

  /** `is_available`. */
  predicate IsPropertyAvailable(p: Property) {
    p.status == Available
  }

  /** A new property: no owner yet, and status 'available' unless the request gives one. */
  function NewProperty(id: nat, houseNumber: string, block: string, floor: string, status: Option<PropertyStatus>): (p: Property)
    ensures p.owner.None? && p.id == id && p.houseNumber == houseNumber
    ensures status.None? ==> p.status == Available && IsPropertyAvailable(p)
  {
    Property(id, houseNumber, block, floor, None, status.GetOr(Available))
  }

  /** A new resident link: active and without a move-out date. */
  function NewLink(propertyId: nat, residentId: nat, relationship: string, isPrimary: bool, moveIn: int): (l: PropertyResident)
    ensures l.isActive && l.moveOutDate.None?
    ensures l.propertyId == propertyId && l.residentId == residentId
  {
    PropertyResident(propertyId, residentId, relationship, isPrimary, moveIn, None, true)
  }

  /** `house_number` is unique across properties. */
  ghost predicate HouseNumbersUnique(props: map<nat, Property>) {
    forall a, b :: a in props && b in props && a != b ==> props[a].houseNumber != props[b].houseNumber
  }

  /** `unique_together = ['property', 'resident']`. */
  ghost predicate LinkPairsUnique(links: seq<PropertyResident>) {
    forall i, j :: 0 <= i < j < |links| ==>
      (links[i].propertyId, links[i].residentId) != (links[j].propertyId, links[j].residentId)
  }

  /** No user is the owner of two properties. */
  ghost predicate OwnersDistinct(props: map<nat, Property>) {
    forall a, b :: a in props && b in props && a != b && props[a].owner.Some? ==> props[a].owner != props[b].owner
  }

  predicate OwnsAny(props: map<nat, Property>, userId: nat) {
    exists id :: id in props && props[id].owner == Some(userId)
  }

  /** True when (property, resident) already has a row, active or not. */
  predicate HasLink(links: seq<PropertyResident>, propertyId: nat, residentId: nat) {
    exists i :: 0 <= i < |links| && links[i].propertyId == propertyId && links[i].residentId == residentId
  }

  /** True when the resident has an active link to the property. */
  predicate IsActiveResidentOf(links: seq<PropertyResident>, propertyId: nat, residentId: nat) {
    exists i :: 0 <= i < |links| && links[i].propertyId == propertyId && links[i].residentId == residentId && links[i].isActive
  }

  /** No resident has two active links: the rule `assign_house_to_resident_view` keeps. */
  ghost predicate SingleActiveAssignment(links: seq<PropertyResident>) {
    forall i, j :: 0 <= i < j < |links| && links[i].isActive && links[j].isActive ==> links[i].residentId != links[j].residentId
  }

  /** Appending a link whose pair is new keeps the pairs unique. */
  lemma AppendKeepsPairsUnique(links: seq<PropertyResident>, l: PropertyResident)
    requires LinkPairsUnique(links) && !HasLink(links, l.propertyId, l.residentId)
    ensures LinkPairsUnique(links + [l])
  {
    var s := links + [l];
    forall i, j | 0 <= i < j < |s|
      ensures (s[i].propertyId, s[i].residentId) != (s[j].propertyId, s[j].residentId)
    {
      if j == |links| {
        assert s[i] == links[i];
      }
    }
  }

  /** The users, properties and resident links, as the database holds them. */
  class Registry {
    var users: map<nat, User>
    var properties: map<nat, Property>
    var links: seq<PropertyResident>

    ghost predicate Valid()
      reads this
    {
      && (forall id :: id in users ==> users[id].id == id)
      && (forall id :: id in properties ==> properties[id].id == id)
      && (forall id :: id in properties && properties[id].owner.Some? ==> properties[id].owner.value in users)
      && (forall i :: 0 <= i < |links| ==> links[i].propertyId in properties && links[i].residentId in users)
      && HouseNumbersUnique(properties)
      && LinkPairsUnique(links)
      && OwnersDistinct(properties)
    }

    constructor ()
      ensures Valid() && users == map[] && properties == map[] && links == []
    {
      users, properties, links := map[], map[], [];
    }
  }
}
