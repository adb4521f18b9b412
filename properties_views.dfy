/**
 * The property views (`apps/properties/views.py`): deletion guard, owner
 * assignment and removal, adding a resident, the status filter and the
 * statistics, over the `Registry` store.
 */
module PropertyViews {
  import opened Base
  import opened Users
  import opened Properties
  import opened Query

  datatype PropertyError =
    | PropertyNotFound
    | UserNotFound
    | NotResidentUser
    | AlreadyOwner(identifier: string)
    | NoOwner
    | MissingOwnerProfile
    | HasOwner
    | HasActiveResidents
    | AlreadyResidentHere
    | IntegrityError
    | InvalidStatus

  /** True when some active link points at the property. */
  predicate HasActiveResident(links: seq<PropertyResident>, propertyId: nat) {
    exists i :: 0 <= i < |links| && links[i].propertyId == propertyId && links[i].isActive
  }

  /** The links that survive deleting a property: its own rows go with it (`on_delete=CASCADE`). */
  function DropLinksOf(links: seq<PropertyResident>, propertyId: nat): (r: seq<PropertyResident>)
    ensures |r| <= |links|
    ensures forall l :: l in r <==> l in links && l.propertyId != propertyId
  {
    if links == [] then []
    else if links[0].propertyId == propertyId then DropLinksOf(links[1..], propertyId)
    else [links[0]] + DropLinksOf(links[1..], propertyId)
  }

  lemma PrependKeepsPairsUnique(l: PropertyResident, links: seq<PropertyResident>)
    requires LinkPairsUnique(links)
    requires forall m :: m in links ==> (m.propertyId, m.residentId) != (l.propertyId, l.residentId)
    ensures LinkPairsUnique([l] + links)
  {
    var s := [l] + links;
    forall i, j | 0 <= i < j < |s|
      ensures (s[i].propertyId, s[i].residentId) != (s[j].propertyId, s[j].residentId)
    {
      assert s[j] == links[j - 1];
      if i > 0 {
        assert s[i] == links[i - 1];
      }
    }
  }

  /** Deleting the rows of one property keeps every (property, resident) pair unique. */
  lemma {:induction false} DropLinksKeepsPairsUnique(links: seq<PropertyResident>, propertyId: nat)
    requires LinkPairsUnique(links)
    ensures LinkPairsUnique(DropLinksOf(links, propertyId))
  {
    if links != [] {
      var rest := links[1..];
      assert LinkPairsUnique(rest) by {
        forall i, j | 0 <= i < j < |rest|
          ensures (rest[i].propertyId, rest[i].residentId) != (rest[j].propertyId, rest[j].residentId)
        {
          assert rest[i] == links[i + 1] && rest[j] == links[j + 1];
        }
      }
      DropLinksKeepsPairsUnique(rest, propertyId);
      if links[0].propertyId != propertyId {
        forall m | m in DropLinksOf(rest, propertyId)
          ensures (m.propertyId, m.residentId) != (links[0].propertyId, links[0].residentId)
        {
          var k :| 0 <= k < |rest| && rest[k] == m;
          assert links[k + 1] == m;
        }
        PrependKeepsPairsUnique(links[0], DropLinksOf(rest, propertyId));
      }
    }
  }

  /**
   * `PropertyDetailView.destroy`: refused while the property has an owner, then
   * while it has an active resident; otherwise the property and its remaining
   * (inactive) resident rows are deleted.
   */
  method DestroyProperty(reg: Registry, propertyId: nat) returns (r: Result<string, PropertyError>)
    requires reg.Valid()
    modifies reg
    ensures reg.Valid() && reg.users == old(reg.users)
    ensures propertyId !in old(reg.properties) ==> r == Err(PropertyNotFound)
    ensures propertyId in old(reg.properties) && old(reg.properties)[propertyId].owner.Some? ==> r == Err(HasOwner)
    ensures propertyId in old(reg.properties) && old(reg.properties)[propertyId].owner.None? && old(HasActiveResident(reg.links, propertyId))
      ==> r == Err(HasActiveResidents)
    ensures r.Err? ==> reg.properties == old(reg.properties) && reg.links == old(reg.links)
    ensures r.Ok? <==> propertyId in old(reg.properties) && old(reg.properties)[propertyId].owner.None? && !old(HasActiveResident(reg.links, propertyId))
    ensures r.Ok? ==> (
      && r.value == old(reg.properties)[propertyId].houseNumber
      && reg.properties == old(reg.properties) - {propertyId}
      && reg.links == DropLinksOf(old(reg.links), propertyId))
  {
    if propertyId !in reg.properties {
      return Err(PropertyNotFound);
    }
    var p := reg.properties[propertyId];
    if p.owner.Some? {
      return Err(HasOwner);
    }
    if HasActiveResident(reg.links, propertyId) {
      return Err(HasActiveResidents);
    }
    DropLinksKeepsPairsUnique(reg.links, propertyId);
    reg.properties := reg.properties - {propertyId};
    reg.links := DropLinksOf(reg.links, propertyId);
    r := Ok(p.houseNumber);
  }

  /** The property after an owner is assigned: owner set and status 'occupied'. */
  function WithOwner(p: Property, ownerId: nat): (q: Property)
    ensures q.owner == Some(ownerId) && q.status == Occupied
    ensures q.(owner := p.owner, status := p.status) == p
  {
    p.(owner := Some(ownerId), status := Occupied)
  }

  /** The property after its owner is removed: no owner and status 'available'. */
  function WithoutOwner(p: Property): (q: Property)
    ensures q.owner.None? && IsPropertyAvailable(q)
    ensures q.(owner := p.owner, status := p.status) == p
  {
    p.(owner := None, status := Available)
  }

  /** Assigning an owner who owns nothing yet keeps every user the owner of at most one property. */
  lemma AssignOwnerKeepsOwnersDistinct(props: map<nat, Property>, propertyId: nat, ownerId: nat)
    requires OwnersDistinct(props) && propertyId in props && !OwnsAny(props, ownerId)
    ensures OwnersDistinct(props[propertyId := WithOwner(props[propertyId], ownerId)])
  {
    var q := props[propertyId := WithOwner(props[propertyId], ownerId)];
    forall a, b | a in q && b in q && a != b && q[a].owner.Some?
      ensures q[a].owner != q[b].owner
    {
      if a == propertyId {
        assert q[b] == props[b];
      } else if b == propertyId {
        assert q[a] == props[a];
      }
    }
  }

  /** Without the guard, assigning a second property to the same user breaks that rule. */
  lemma AssignOwnerGuardNeeded()
    ensures exists props: map<nat, Property>, pid: nat, o: nat ::
      && OwnersDistinct(props) && pid in props && OwnsAny(props, o)
      && !OwnersDistinct(props[pid := WithOwner(props[pid], o)])
  {
    var p1 := Property(1, "101", "A", "", Some(7), Occupied);
    var p2 := Property(2, "102", "A", "", None, Available);
    var props := map[1 := p1, 2 := p2];
    var q := props[2 := WithOwner(p2, 7)];
    assert OwnsAny(props, 7) by { assert props[1].owner == Some(7); }
    assert !OwnersDistinct(q) by { assert q[1].owner == q[2].owner == Some(7); }
    assert OwnersDistinct(props) && 2 in props && OwnsAny(props, 7) && !OwnersDistinct(props[2 := WithOwner(props[2], 7)]);
  }

  /** Clearing an owner keeps every user the owner of at most one property. */
  lemma RemoveOwnerKeepsOwnersDistinct(props: map<nat, Property>, propertyId: nat)
    requires OwnersDistinct(props) && propertyId in props
    ensures OwnersDistinct(props[propertyId := WithoutOwner(props[propertyId])])
  {
    var q := props[propertyId := WithoutOwner(props[propertyId])];
    forall a, b | a in q && b in q && a != b && q[a].owner.Some?
      ensures q[a].owner != q[b].owner
    {
      assert q[a] == props[a];
      if b != propertyId {
        assert q[b] == props[b];
      }
    }
  }

  /** Changing one property's owner or status keeps the house numbers unique. */
  lemma SameHouseNumbersKeepUnique(props: map<nat, Property>, propertyId: nat, p: Property)
    requires HouseNumbersUnique(props) && propertyId in props && p.houseNumber == props[propertyId].houseNumber
    ensures HouseNumbersUnique(props[propertyId := p])
  {
    var q := props[propertyId := p];
    forall a, b | a in q && b in q && a != b
      ensures q[a].houseNumber != q[b].houseNumber
    {
      assert q[a].houseNumber == props[a].houseNumber;
      assert q[b].houseNumber == props[b].houseNumber;
    }
  }

  /**
   * `assign_owner_view`: the property must exist, the user must be a resident,
   * and a user who already owns any property (this one included) is refused.
   * Otherwise the owner is set (a previous owner is overwritten), the status
   * becomes 'occupied' and the owner's house identifier becomes the property's
   * full identifier.
   */
  method AssignOwner(reg: Registry, propertyId: nat, ownerId: nat) returns (r: Result<Property, PropertyError>)
    requires reg.Valid()
    modifies reg
    ensures reg.Valid() && reg.links == old(reg.links)
    ensures propertyId !in old(reg.properties) ==> r == Err(PropertyNotFound)
    ensures propertyId in old(reg.properties) && ownerId !in old(reg.users) ==> r == Err(UserNotFound)
    ensures propertyId in old(reg.properties) && ownerId in old(reg.users) && !IsResidentUser(old(reg.users)[ownerId])
      ==> r == Err(NotResidentUser)
    ensures propertyId in old(reg.properties) && ownerId in old(reg.users) && IsResidentUser(old(reg.users)[ownerId])
      && OwnsAny(old(reg.properties), ownerId)
      ==> (
        && r.Err? && r.error.AlreadyOwner?
        && exists id :: (
          && id in old(reg.properties) && old(reg.properties)[id].owner == Some(ownerId)
          && r.error.identifier == FullIdentifier(old(reg.properties)[id])))
    ensures r.Err? ==> reg.properties == old(reg.properties) && reg.users == old(reg.users)
    ensures r.Ok? <==> (
      && propertyId in old(reg.properties) && ownerId in old(reg.users) && IsResidentUser(old(reg.users)[ownerId])
      && !OwnsAny(old(reg.properties), ownerId))
    ensures r.Ok? ==>
      && r.value == WithOwner(old(reg.properties)[propertyId], ownerId)
      && reg.properties == old(reg.properties)[propertyId := r.value]
      && reg.users == old(reg.users)[ownerId := WithHouseIdentifier(old(reg.users)[ownerId], FullIdentifier(r.value))]
  {
    if propertyId !in reg.properties {
      return Err(PropertyNotFound);
    }
    if ownerId !in reg.users {
      return Err(UserNotFound);
    }
    var owner := reg.users[ownerId];
    if !IsResidentUser(owner) {
      return Err(NotResidentUser);
    }
    if OwnsAny(reg.properties, ownerId) {
      var id :| id in reg.properties && reg.properties[id].owner == Some(ownerId);
      return Err(AlreadyOwner(FullIdentifier(reg.properties[id])));
    }
    var p := WithOwner(reg.properties[propertyId], ownerId);
    AssignOwnerKeepsOwnersDistinct(reg.properties, propertyId, ownerId);
    SameHouseNumbersKeepUnique(reg.properties, propertyId, p);
    reg.properties := reg.properties[propertyId := p];
    reg.users := reg.users[ownerId := WithHouseIdentifier(owner, FullIdentifier(p))];
    r := Ok(p);
  }

  /**
   * `remove_owner_view`: refused when the property has no owner; an owner
   * without a profile makes the view fail. Otherwise the owner's house
   * identifier is cleared, the owner removed and the status set to
   * 'available'. The result is the former owner's full name.
   */
  method RemoveOwner(reg: Registry, propertyId: nat) returns (r: Result<string, PropertyError>)
    requires reg.Valid()
    modifies reg
    ensures reg.Valid() && reg.links == old(reg.links)
    ensures propertyId !in old(reg.properties) ==> r == Err(PropertyNotFound)
    ensures propertyId in old(reg.properties) && old(reg.properties)[propertyId].owner.None? ==> r == Err(NoOwner)
    ensures r.Err? ==> reg.properties == old(reg.properties) && reg.users == old(reg.users)
    ensures r.Ok? <==> (
      && propertyId in old(reg.properties) && old(reg.properties)[propertyId].owner.Some?
      && old(reg.users)[old(reg.properties)[propertyId].owner.value].profile.Some?)
    ensures r.Ok? ==>
      var o := old(reg.properties)[propertyId].owner.value;
      && r.value == DisplayName(old(reg.users)[o])
      && reg.properties == old(reg.properties)[propertyId := WithoutOwner(old(reg.properties)[propertyId])]
      && reg.users == old(reg.users)[o := WithHouseIdentifier(old(reg.users)[o], "")]
  {
    if propertyId !in reg.properties {
      return Err(PropertyNotFound);
    }
    var p := reg.properties[propertyId];
    if p.owner.None? {
      return Err(NoOwner);
    }
    var owner := reg.users[p.owner.value];
    if owner.profile.None? {
      return Err(MissingOwnerProfile);
    }
    RemoveOwnerKeepsOwnersDistinct(reg.properties, propertyId);
    SameHouseNumbersKeepUnique(reg.properties, propertyId, WithoutOwner(p));
    reg.users := reg.users[p.owner.value := WithHouseIdentifier(owner, "")];
    reg.properties := reg.properties[propertyId := WithoutOwner(p)];
    r := Ok(DisplayName(owner));
  }

  /**
   * The checks `add_resident_to_property_view` makes before inserting a link,
   * after the property and the resident are found: not already active here,
   * a move-in date given (the view passes an absent one as NULL to a NOT NULL
   * column), and no earlier row for the pair (`unique_together`).
   */
  predicate AddResidentAccepted(links: seq<PropertyResident>, propertyId: nat, residentId: nat, moveIn: Option<int>) {
    !IsActiveResidentOf(links, propertyId, residentId) && moveIn.Some? && !HasLink(links, propertyId, residentId)
  }

  /**
   * `add_resident_to_property_view`: the property must exist and the user be a
   * resident; a resident already active here is refused; the insert fails on
   * a missing move-in date or an existing (inactive) row for the pair.
   * Otherwise an active link is appended and the resident's house identifier
   * becomes the property's full identifier.
   */
  method AddResident(reg: Registry, propertyId: nat, residentId: nat, relationship: string, isPrimary: bool, moveIn: Option<int>)
    returns (r: Result<PropertyResident, PropertyError>)
    requires reg.Valid()
    modifies reg
    ensures reg.Valid() && reg.properties == old(reg.properties)
    ensures propertyId !in old(reg.properties) ==> r == Err(PropertyNotFound)
    ensures propertyId in old(reg.properties) && residentId !in old(reg.users) ==> r == Err(UserNotFound)
    ensures propertyId in old(reg.properties) && residentId in old(reg.users) && !IsResidentUser(old(reg.users)[residentId])
      ==> r == Err(NotResidentUser)
    ensures propertyId in old(reg.properties) && residentId in old(reg.users) && IsResidentUser(old(reg.users)[residentId])
      && old(IsActiveResidentOf(reg.links, propertyId, residentId))
      ==> r == Err(AlreadyResidentHere)
    ensures r.Err? ==> reg.links == old(reg.links) && reg.users == old(reg.users)
    ensures r.Ok? <==> (
      && propertyId in old(reg.properties) && residentId in old(reg.users) && IsResidentUser(old(reg.users)[residentId])
      && old(AddResidentAccepted(reg.links, propertyId, residentId, moveIn)))
    ensures r.Ok? ==>
      && r.value == NewLink(propertyId, residentId, relationship, isPrimary, moveIn.value)
      && reg.links == old(reg.links) + [r.value]
      && reg.users == old(reg.users)[residentId := WithHouseIdentifier(old(reg.users)[residentId], FullIdentifier(reg.properties[propertyId]))]
  {
    if propertyId !in reg.properties {
      return Err(PropertyNotFound);
    }
    if residentId !in reg.users {
      return Err(UserNotFound);
    }
    var resident := reg.users[residentId];
    if !IsResidentUser(resident) {
      return Err(NotResidentUser);
    }
    if IsActiveResidentOf(reg.links, propertyId, residentId) {
      return Err(AlreadyResidentHere);
    }
    if moveIn.None? || HasLink(reg.links, propertyId, residentId) {
      return Err(IntegrityError);
    }
    var link := NewLink(propertyId, residentId, relationship, isPrimary, moveIn.value);
    AppendKeepsPairsUnique(reg.links, link);
    reg.links := reg.links + [link];
    reg.users := reg.users[residentId := WithHouseIdentifier(resident, FullIdentifier(reg.properties[propertyId]))];
    r := Ok(link);
  }

  /**
   * `add_resident_to_property_view` checks only the same property, so a
   * resident already active elsewhere gains a second active assignment.
   */
  lemma AddResidentAllowsSecondActiveAssignment()
    ensures exists links: seq<PropertyResident>, pid: nat, rid: nat, d: int ::
      && SingleActiveAssignment(links)
      && AddResidentAccepted(links, pid, rid, Some(d))
      && !SingleActiveAssignment(links + [NewLink(pid, rid, "Familiar", false, d)])
  {
    var links := [NewLink(1, 5, "Familiar", false, 0)];
    var s := links + [NewLink(2, 5, "Familiar", false, 0)];
    assert s[0].isActive && s[1].isActive && s[0].residentId == s[1].residentId;
    assert !IsActiveResidentOf(links, 2, 5) && !HasLink(links, 2, 5);
  }

  function ParsePropertyStatus(code: string): (r: Option<PropertyStatus>)
    ensures r.Some? ==> StatusCode(r.value) == code
    ensures r.None? ==> forall s: PropertyStatus :: StatusCode(s) != code
  {
    if code == "available" then Some(Available)
    else if code == "occupied" then Some(Occupied)
    else if code == "maintenance" then Some(Maintenance)
    else if code == "reserved" then Some(Reserved)
    else None
  }

  lemma ParsePropertyStatusRoundTrip(s: PropertyStatus)
    ensures ParsePropertyStatus(StatusCode(s)) == Some(s)
  {
    match s
    case Available =>
    case Occupied =>
    case Maintenance =>
    case Reserved =>
  }

  function HasStatus(s: PropertyStatus): Property -> bool {
    (p: Property) => p.status == s
  }

  /** `properties_by_status_view`: an unknown status code is rejected; otherwise exactly the properties with that status. */
  function PropertiesByStatus(props: seq<Property>, code: string): (r: Result<seq<Property>, PropertyError>)
    ensures r.Err? <==> forall s: PropertyStatus :: StatusCode(s) != code
    ensures r.Err? ==> r.error == InvalidStatus
    ensures r.Ok? ==> forall p :: p in r.value <==> p in props && StatusCode(p.status) == code
  {
    match ParsePropertyStatus(code)
    case None => Err(InvalidStatus)
    case Some(s) =>
      assert forall p: Property :: StatusCode(p.status) == code <==> p.status == s by {
        forall p: Property ensures StatusCode(p.status) == code <==> p.status == s {
          ParsePropertyStatusRoundTrip(p.status);
        }
      }
      Ok(Filter(props, HasStatus(s)))
  }

  datatype PropertyStats = PropertyStats(
    total: nat,
    withOwner: nat,
    withoutOwner: nat,
    totalResidents: nat,
    available: nat,
    occupied: nat,
    maintenance: nat,
    reserved: nat)

  function IsOwned(p: Property): bool { p.owner.Some? }

  function IsUnowned(p: Property): bool { p.owner.None? }

  function IsActiveLink(l: PropertyResident): bool { l.isActive }

  lemma {:induction false} StatusCountsSum(props: seq<Property>)
    ensures Count(props, HasStatus(Available)) + Count(props, HasStatus(Occupied))
      + Count(props, HasStatus(Maintenance)) + Count(props, HasStatus(Reserved)) == |props|
  {
    if props != [] {
      StatusCountsSum(props[1..]);
    }
  }

  /** `property_stats_view`: the owned and unowned counts, and the counts per status, each add up to the total. */
  function Stats(props: seq<Property>, links: seq<PropertyResident>): (st: PropertyStats)
    ensures st.total == |props|
    ensures st.withOwner + st.withoutOwner == st.total
    ensures st.available + st.occupied + st.maintenance + st.reserved == st.total
    ensures st.totalResidents <= |links|
    ensures st.withOwner == 0 <==> forall p :: p in props ==> p.owner.None?
  {
    CountSplit(props, IsOwned, IsUnowned);
    StatusCountsSum(props);
    PropertyStats(
      |props|,
      Count(props, IsOwned),
      Count(props, IsUnowned),
      Count(links, IsActiveLink),
      Count(props, HasStatus(Available)),
      Count(props, HasStatus(Occupied)),
      Count(props, HasStatus(Maintenance)),
      Count(props, HasStatus(Reserved)))
  }
}
