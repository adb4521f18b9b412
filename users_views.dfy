/**
 * The user views (`apps/users/views.py`): the type filter, the profile updates,
 * assigning and removing a resident's house, and the lists of residents with
 * and without a house, over the `Registry` store.
 */
module UserViews {
  import opened Base
  import opened Users
  import opened Properties
  import opened Query

  datatype UserError =
    | UserNotFound
    | MissingProfile
    | NotResident
    | MissingPropertyId
    | PropertyNotFound
    | AlreadyAssigned(identifier: string)
    | NoAssignment
    | IntegrityError
    | InvalidUserType

  function ParseUserType(code: string): (r: Option<UserType>)
    ensures r.Some? ==> UserTypeCode(r.value) == code
    ensures r.None? ==> forall t: UserType :: UserTypeCode(t) != code
  {
    if code == "admin" then Some(Admin)
    else if code == "security" then Some(Security)
    else if code == "camera" then Some(Camera)
    else if code == "resident" then Some(Resident)
    else None
  }

  lemma ParseUserTypeRoundTrip(t: UserType)
    ensures ParseUserType(UserTypeCode(t)) == Some(t)
  {
    match t
    case Admin =>
    case Security =>
    case Camera =>
    case Resident =>
  }

  function HasUserType(t: UserType): User -> bool {
    (u: User) => u.profile.Some? && u.profile.value.userType == t
  }

  /** `users_by_type_view`: an unknown type code is rejected; otherwise exactly the users whose profile has that type. */
  function UsersByType(users: seq<User>, code: string): (r: Result<seq<User>, UserError>)
    ensures r.Err? <==> forall t: UserType :: UserTypeCode(t) != code
    ensures r.Err? ==> r.error == InvalidUserType
    ensures r.Ok? ==> forall u :: u in r.value <==> u in users && u.profile.Some? && UserTypeCode(u.profile.value.userType) == code
  {
    match ParseUserType(code)
    case None => Err(InvalidUserType)
    case Some(t) =>
      assert forall u: User :: u.profile.Some? ==> (UserTypeCode(u.profile.value.userType) == code <==> u.profile.value.userType == t) by {
        forall u: User | u.profile.Some?
          ensures UserTypeCode(u.profile.value.userType) == code <==> u.profile.value.userType == t
        {
          ParseUserTypeRoundTrip(u.profile.value.userType);
        }
      }
      Ok(Filter(users, HasUserType(t)))
  }

  /**
   * The user after `update_user_profile_view`: each of first name, last name,
   * email and phone is replaced when the request supplies it and kept
   * otherwise; the phone is only touched when the user has a profile.
   */
  function UpdatedProfile(u: User, firstName: Option<string>, lastName: Option<string>, email: Option<string>, phone: Option<string>): (v: User)
    ensures v.firstName == firstName.GetOr(u.firstName) && v.lastName == lastName.GetOr(u.lastName) && v.email == email.GetOr(u.email)
    ensures firstName.None? ==> v.firstName == u.firstName
    ensures lastName.None? ==> v.lastName == u.lastName
    ensures email.None? ==> v.email == u.email
    ensures v.id == u.id && v.username == u.username && v.isStaff == u.isStaff
    ensures v.profile.Some? <==> u.profile.Some?
    ensures u.profile.Some? ==> v.profile.value == u.profile.value.(phone := phone.GetOr(u.profile.value.phone))
    ensures firstName.None? && lastName.None? && email.None? && phone.None? ==> v == u
  {
    var profile := match u.profile
      case None => None
      case Some(p) => Some(p.(phone := phone.GetOr(p.phone)));
    u.(firstName := firstName.GetOr(u.firstName), lastName := lastName.GetOr(u.lastName),
       email := email.GetOr(u.email), profile := profile)
  }

  /** `update_user_profile_view`: a missing user is not found; otherwise the user becomes `UpdatedProfile`. */
  method UpdateUserProfile(reg: Registry, userId: nat, firstName: Option<string>, lastName: Option<string>, email: Option<string>, phone: Option<string>)
    returns (r: Result<User, UserError>)
    requires reg.Valid()
    modifies reg
    ensures reg.Valid() && reg.properties == old(reg.properties) && reg.links == old(reg.links)
    ensures userId !in old(reg.users) ==> r == Err(UserNotFound) && reg.users == old(reg.users)
    ensures userId in old(reg.users) ==> (
      && r == Ok(UpdatedProfile(old(reg.users)[userId], firstName, lastName, email, phone))
      && reg.users == old(reg.users)[userId := r.value])
  {
    if userId !in reg.users {
      return Err(UserNotFound);
    }
    var v := UpdatedProfile(reg.users[userId], firstName, lastName, email, phone);
    reg.users := reg.users[userId := v];
    r := Ok(v);
  }

  /**
   * The resident profile that `create_resident_profile_view` leaves: a new one
   * from the supplied fields when none exists (type and birth date are NOT NULL
   * columns, so a missing one fails the insert; the house identifier defaults to
   * empty), or the existing one with only the supplied fields replaced.
   */
  function UpsertResidentProfile(existing: Option<ResidentProfile>, residentType: Option<ResidentType>, birthDate: Option<CalDate>, houseIdentifier: Option<string>)
    : (r: Result<ResidentProfile, UserError>)
    ensures existing.None? ==> (r.Ok? <==> residentType.Some? && birthDate.Some?)
    ensures existing.None? && r.Ok? ==> r.value == ResidentProfile(residentType.value, birthDate.value, houseIdentifier.GetOr(""))
    ensures existing.None? && r.Err? ==> r.error == IntegrityError
    ensures existing.Some? ==> r.Ok?
    ensures existing.Some? ==> (
      && r.value.residentType == residentType.GetOr(existing.value.residentType)
      && r.value.birthDate == birthDate.GetOr(existing.value.birthDate)
      && r.value.houseIdentifier == houseIdentifier.GetOr(existing.value.houseIdentifier))
    ensures existing.Some? && residentType.None? && birthDate.None? && houseIdentifier.None? ==> r == Ok(existing.value)
  {
    match existing
    case None =>
      if residentType.None? || birthDate.None? then Err(IntegrityError)
      else Ok(ResidentProfile(residentType.value, birthDate.value, houseIdentifier.GetOr("")))
    case Some(p) =>
      Ok(ResidentProfile(residentType.GetOr(p.residentType), birthDate.GetOr(p.birthDate), houseIdentifier.GetOr(p.houseIdentifier)))
  }

  /** The user whose resident profile is replaced by `info`; the user must have a profile. */
  function WithResidentInfo(u: User, info: ResidentProfile): (v: User)
    requires u.profile.Some?
    ensures HasResidentInfo(v) && v.profile.value.residentInfo.value == info
    ensures v.profile.value.(residentInfo := u.profile.value.residentInfo) == u.profile.value
    ensures v.(profile := u.profile) == u
  {
    u.(profile := Some(u.profile.value.(residentInfo := Some(info))))
  }

  /**
   * `create_resident_profile_view`: the user must exist, have a profile (the view
   * fails otherwise) and be a resident; then the resident profile is created
   * or updated as `UpsertResidentProfile` says.
   */
  method CreateResidentProfile(reg: Registry, userId: nat, residentType: Option<ResidentType>, birthDate: Option<CalDate>, houseIdentifier: Option<string>)
    returns (r: Result<ResidentProfile, UserError>)
    requires reg.Valid()
    modifies reg
    ensures reg.Valid() && reg.properties == old(reg.properties) && reg.links == old(reg.links)
    ensures userId !in old(reg.users) ==> r == Err(UserNotFound)
    ensures userId in old(reg.users) && old(reg.users)[userId].profile.None? ==> r == Err(MissingProfile)
    ensures userId in old(reg.users) && old(reg.users)[userId].profile.Some? && !IsResidentUser(old(reg.users)[userId]) ==> r == Err(NotResident)
    ensures userId in old(reg.users) && IsResidentUser(old(reg.users)[userId]) ==>
      r == UpsertResidentProfile(old(reg.users)[userId].profile.value.residentInfo, residentType, birthDate, houseIdentifier)
    ensures r.Err? ==> reg.users == old(reg.users)
    ensures r.Ok? ==> userId in old(reg.users) && reg.users == old(reg.users)[userId := WithResidentInfo(old(reg.users)[userId], r.value)]
  {
    if userId !in reg.users {
      return Err(UserNotFound);
    }
    var u := reg.users[userId];
    if u.profile.None? {
      return Err(MissingProfile);
    }
    if !IsResidentUser(u) {
      return Err(NotResident);
    }
    r := UpsertResidentProfile(u.profile.value.residentInfo, residentType, birthDate, houseIdentifier);
    if r.Ok? {
      reg.users := reg.users[userId := WithResidentInfo(u, r.value)];
    }
  }

  /** True when the resident has some active link, to any property. */
  predicate HasActiveAssignment(links: seq<PropertyResident>, residentId: nat) {
    exists i :: 0 <= i < |links| && links[i].residentId == residentId && links[i].isActive
  }

  /** The first active link of a resident (`.filter(resident=user, is_active=True).first()`). */
  function FirstActiveIndex(links: seq<PropertyResident>, residentId: nat): (i: nat)
    requires HasActiveAssignment(links, residentId)
    ensures i < |links| && links[i].residentId == residentId && links[i].isActive
    ensures forall j :: 0 <= j < i ==> !(links[j].residentId == residentId && links[j].isActive)
  {
    if links[0].residentId == residentId && links[0].isActive then 0
    else
      assert HasActiveAssignment(links[1..], residentId) by {
        var k :| 0 <= k < |links| && links[k].residentId == residentId && links[k].isActive;
        assert links[1..][k - 1] == links[k];
      }
      1 + FirstActiveIndex(links[1..], residentId)
  }

  /** Adding an active link for a resident with none keeps every resident at most one active link. */
  lemma AssignHouseKeepsSingleActive(links: seq<PropertyResident>, l: PropertyResident)
    requires SingleActiveAssignment(links) && !HasActiveAssignment(links, l.residentId)
    ensures SingleActiveAssignment(links + [l])
  {
    var s := links + [l];
    forall i, j | 0 <= i < j < |s| && s[i].isActive && s[j].isActive
      ensures s[i].residentId != s[j].residentId
    {
      assert s[i] == links[i];
      if j < |links| {
        assert s[j] == links[j];
      }
    }
  }

  /** The link after `remove_house_from_resident_view`: inactive, moved out today. */
  function MovedOut(l: PropertyResident, today: int): (m: PropertyResident)
    ensures !m.isActive && m.moveOutDate == Some(today)
    ensures m.(isActive := l.isActive, moveOutDate := l.moveOutDate) == l
  {
    l.(isActive := false, moveOutDate := Some(today))
  }

  /** Moving a link out keeps every resident at most one active link, and the pairs unique. */
  lemma MoveOutKeepsInvariants(links: seq<PropertyResident>, i: nat, today: int)
    requires i < |links| && LinkPairsUnique(links)
    ensures LinkPairsUnique(links[i := MovedOut(links[i], today)])
    ensures SingleActiveAssignment(links) ==> SingleActiveAssignment(links[i := MovedOut(links[i], today)])
  {
    var s := links[i := MovedOut(links[i], today)];
    forall a, b | 0 <= a < b < |s|
      ensures (s[a].propertyId, s[a].residentId) != (s[b].propertyId, s[b].residentId)
    {
      assert (s[a].propertyId, s[a].residentId) == (links[a].propertyId, links[a].residentId);
      assert (s[b].propertyId, s[b].residentId) == (links[b].propertyId, links[b].residentId);
    }
  }

  /** With at most one active link each, removing a resident's house leaves that resident with none. */
  lemma RemoveHouseClearsAssignment(links: seq<PropertyResident>, residentId: nat, today: int)
    requires SingleActiveAssignment(links) && HasActiveAssignment(links, residentId)
    ensures !HasActiveAssignment(links[FirstActiveIndex(links, residentId) := MovedOut(links[FirstActiveIndex(links, residentId)], today)], residentId)
  {
    var i := FirstActiveIndex(links, residentId);
    var s := links[i := MovedOut(links[i], today)];
    forall k | 0 <= k < |s| && s[k].residentId == residentId
      ensures !s[k].isActive
    {
      if k != i {
        assert s[k] == links[k];
        if k < i {
          assert !(links[k].residentId == residentId && links[k].isActive);
        } else {
          assert i < k;
        }
      }
    }
  }

  /** The record `assign_house_to_resident_view` reports. */
  datatype Assignment = Assignment(
    userId: nat,
    userName: string,
    propertyId: nat,
    propertyIdentifier: string,
    relationship: string,
    isPrimaryResident: bool)

  /**
   * The checks of `assign_house_to_resident_view`, in order: the user must
   * exist, have a profile and be a resident; a missing (or zero) property id
   * and an unknown property are refused; a resident with any active
   * assignment is refused, naming the property of the first one; an earlier
   * row for the pair fails the insert (`unique_together`). On success, the
   * property to link.
   */
  function AssignHouseTarget(users: map<nat, User>, props: map<nat, Property>, links: seq<PropertyResident>, userId: nat, propertyId: Option<int>)
    : (r: Result<nat, UserError>)
    requires forall i :: 0 <= i < |links| ==> links[i].propertyId in props
    ensures userId !in users ==> r == Err(UserNotFound)
    ensures userId in users && users[userId].profile.None? ==> r == Err(MissingProfile)
    ensures userId in users && users[userId].profile.Some? && !IsResidentUser(users[userId]) ==> r == Err(NotResident)
    ensures userId in users && IsResidentUser(users[userId]) && (propertyId.None? || propertyId == Some(0)) ==> r == Err(MissingPropertyId)
    ensures (
      && userId in users && IsResidentUser(users[userId]) && propertyId.Some? && propertyId != Some(0)
      && !(propertyId.value > 0 && propertyId.value as nat in props)) ==> r == Err(PropertyNotFound)
    ensures r.Err? && r.error.AlreadyAssigned? ==>
      HasActiveAssignment(links, userId)
      && r.error.identifier == FullIdentifier(props[links[FirstActiveIndex(links, userId)].propertyId])
    ensures r.Ok? <==> (
      && userId in users && IsResidentUser(users[userId])
      && propertyId.Some? && propertyId.value > 0 && propertyId.value as nat in props
      && !HasActiveAssignment(links, userId)
      && !HasLink(links, propertyId.value as nat, userId))
    ensures r.Ok? ==> r.value == propertyId.value
  {
    if userId !in users then Err(UserNotFound)
    else if users[userId].profile.None? then Err(MissingProfile)
    else if !IsResidentUser(users[userId]) then Err(NotResident)
    else if propertyId.None? || propertyId.value == 0 then Err(MissingPropertyId)
    else if propertyId.value < 0 || propertyId.value as nat !in props then Err(PropertyNotFound)
    else if HasActiveAssignment(links, userId) then
      Err(AlreadyAssigned(FullIdentifier(props[links[FirstActiveIndex(links, userId)].propertyId])))
    else if HasLink(links, propertyId.value as nat, userId) then Err(IntegrityError)
    else Ok(propertyId.value as nat)
  }

  /**
   * `assign_house_to_resident_view`: when `AssignHouseTarget` succeeds, an
   * active link with the request's relationship (default 'resident'), primary
   * flag (default false) and move-in today is appended, and the resident's
   * house identifier becomes the property's full identifier.
   */
  method AssignHouse(reg: Registry, userId: nat, propertyId: Option<int>, relationship: Option<string>, isPrimary: Option<bool>, today: int)
    returns (r: Result<Assignment, UserError>)
    requires reg.Valid()
    modifies reg
    ensures reg.Valid() && reg.properties == old(reg.properties)
    ensures old(SingleActiveAssignment(reg.links)) ==> SingleActiveAssignment(reg.links)
    ensures var t := old(AssignHouseTarget(reg.users, reg.properties, reg.links, userId, propertyId));
      && (t.Err? ==> r == Err(t.error) && reg.users == old(reg.users) && reg.links == old(reg.links))
      && (t.Ok? ==> r.Ok? && AddedAssignment(old(reg.users), reg.properties, old(reg.links), userId, t.value, relationship, isPrimary, today,
                                             reg.users, reg.links, r.value))
  {
    var t := AssignHouseTarget(reg.users, reg.properties, reg.links, userId, propertyId);
    if t.Err? {
      return Err(t.error);
    }
    var a := ApplyAssignment(reg, userId, t.value, relationship, isPrimary, today);
    r := Ok(a);
  }

  /** The state change of a successful house assignment: the link is appended and the house identifier set. */
  method ApplyAssignment(reg: Registry, userId: nat, pid: nat, relationship: Option<string>, isPrimary: Option<bool>, today: int)
    returns (a: Assignment)
    requires reg.Valid() && userId in reg.users && pid in reg.properties
    requires !HasActiveAssignment(reg.links, userId) && !HasLink(reg.links, pid, userId)
    modifies reg
    ensures reg.Valid() && reg.properties == old(reg.properties)
    ensures old(SingleActiveAssignment(reg.links)) ==> SingleActiveAssignment(reg.links)
    ensures AddedAssignment(old(reg.users), reg.properties, old(reg.links), userId, pid, relationship, isPrimary, today, reg.users, reg.links, a)
  {
    var u := reg.users[userId];
    var p := reg.properties[pid];
    var rel := relationship.GetOr("resident");
    var primary := isPrimary.GetOr(false);
    var link := NewLink(pid, userId, rel, primary, today);
    AppendKeepsPairsUnique(reg.links, link);
    if SingleActiveAssignment(reg.links) {
      AssignHouseKeepsSingleActive(reg.links, link);
    }
    reg.links := reg.links + [link];
    reg.users := reg.users[userId := WithHouseIdentifier(u, FullIdentifier(p))];
    a := Assignment(userId, DisplayName(u), pid, FullIdentifier(p), rel, primary);
  }

  /** The new state and report of a successful house assignment. */
  ghost predicate AddedAssignment(users: map<nat, User>, props: map<nat, Property>, links: seq<PropertyResident>, userId: nat, pid: nat,
                                  relationship: Option<string>, isPrimary: Option<bool>, today: int,
                                  users': map<nat, User>, links': seq<PropertyResident>, a: Assignment)
  {
    && userId in users && pid in props
    && var link := NewLink(pid, userId, relationship.GetOr("resident"), isPrimary.GetOr(false), today);
    && links' == links + [link]
    && users' == users[userId := WithHouseIdentifier(users[userId], FullIdentifier(props[pid]))]
    && a == Assignment(userId, DisplayName(users[userId]), pid, FullIdentifier(props[pid]), link.relationship, link.isPrimaryResident)
  }

  /**
   * `remove_house_from_resident_view`: the user must exist, have a profile and
   * be a resident, and have an active assignment; its first active link is
   * marked inactive with move-out today, and the house identifier is cleared.
   * The result is the identifier of the property moved out of.
   */
  method RemoveHouse(reg: Registry, userId: nat, today: int) returns (r: Result<string, UserError>)
    requires reg.Valid()
    modifies reg
    ensures reg.Valid() && reg.properties == old(reg.properties)
    ensures old(SingleActiveAssignment(reg.links)) ==> SingleActiveAssignment(reg.links)
    ensures userId !in old(reg.users) ==> r == Err(UserNotFound)
    ensures userId in old(reg.users) && old(reg.users)[userId].profile.None? ==> r == Err(MissingProfile)
    ensures userId in old(reg.users) && old(reg.users)[userId].profile.Some? && !IsResidentUser(old(reg.users)[userId]) ==> r == Err(NotResident)
    ensures userId in old(reg.users) && IsResidentUser(old(reg.users)[userId]) && !old(HasActiveAssignment(reg.links, userId))
      ==> r == Err(NoAssignment)
    ensures r.Err? ==> reg.users == old(reg.users) && reg.links == old(reg.links)
    ensures r.Ok? <==> userId in old(reg.users) && IsResidentUser(old(reg.users)[userId]) && old(HasActiveAssignment(reg.links, userId))
    ensures r.Ok? ==>
      var i := FirstActiveIndex(old(reg.links), userId);
      && reg.links == old(reg.links)[i := MovedOut(old(reg.links)[i], today)]
      && reg.users == old(reg.users)[userId := WithHouseIdentifier(old(reg.users)[userId], "")]
      && r.value == FullIdentifier(reg.properties[old(reg.links)[i].propertyId])
    ensures r.Ok? && old(SingleActiveAssignment(reg.links)) ==> !HasActiveAssignment(reg.links, userId)
  {
    if userId !in reg.users {
      return Err(UserNotFound);
    }
    var u := reg.users[userId];
    if u.profile.None? {
      return Err(MissingProfile);
    }
    if !IsResidentUser(u) {
      return Err(NotResident);
    }
    if !HasActiveAssignment(reg.links, userId) {
      return Err(NoAssignment);
    }
    var i := FirstActiveIndex(reg.links, userId);
    var ident := FullIdentifier(reg.properties[reg.links[i].propertyId]);
    MoveOutKeepsInvariants(reg.links, i, today);
    if SingleActiveAssignment(reg.links) {
      RemoveHouseClearsAssignment(reg.links, userId, today);
    }
    reg.links := reg.links[i := MovedOut(reg.links[i], today)];
    reg.users := reg.users[userId := WithHouseIdentifier(u, "")];
    r := Ok(ident);
  }

  /** The residents without a house, in the order given: residents with no active link. */
  function WithoutHouse(users: seq<User>, links: seq<PropertyResident>): (r: seq<User>)
    ensures |r| <= |users|
    ensures forall u :: u in r <==> u in users && IsResidentUser(u) && !HasActiveAssignment(links, u.id)
  {
    if users == [] then []
    else
      var last := users[|users| - 1];
      WithoutHouse(users[..|users| - 1], links)
        + (if IsResidentUser(last) && !HasActiveAssignment(links, last.id) then [last] else [])
  }

  /** `residents_without_house_view`: the loop that collects the residents with no active assignment. */
  method ResidentsWithoutHouse(users: seq<User>, links: seq<PropertyResident>) returns (out: seq<User>)
    ensures out == WithoutHouse(users, links)
  {
    out := [];
    var i := 0;
    while i < |users|
      invariant 0 <= i <= |users|
      invariant out == WithoutHouse(users[..i], links)
    {
      var u := users[i];
      assert users[..i + 1][..i] == users[..i];
      if IsResidentUser(u) && !HasActiveAssignment(links, u.id) {
        out := out + [u];
      }
      i := i + 1;
    }
    assert users[..i] == users;
  }

  /** The `house_assignment` part of an entry in `residents_with_house_view`. */
  datatype HouseAssignment = HouseAssignment(
    propertyId: nat,
    propertyIdentifier: string,
    relationship: string,
    isPrimaryResident: bool,
    moveInDate: int)

  datatype ResidentWithHouse = ResidentWithHouse(user: User, house: HouseAssignment)

  function IsActive(l: PropertyResident): bool { l.isActive }

  /** Every link points at a stored property and a stored user. */
  ghost predicate LinksResolve(links: seq<PropertyResident>, users: map<nat, User>, props: map<nat, Property>) {
    forall l :: l in links ==> l.residentId in users && l.propertyId in props
  }

  function EntryFor(l: PropertyResident, users: map<nat, User>, props: map<nat, Property>): ResidentWithHouse
    requires l.residentId in users && l.propertyId in props
  {
    ResidentWithHouse(users[l.residentId],
      HouseAssignment(l.propertyId, FullIdentifier(props[l.propertyId]), l.relationship, l.isPrimaryResident, l.moveInDate))
  }

  /** The entries of `residents_with_house_view`: one per active link, in order. */
  function HouseEntries(links: seq<PropertyResident>, users: map<nat, User>, props: map<nat, Property>): seq<ResidentWithHouse>
    requires LinksResolve(links, users, props)
  {
    if links == [] then []
    else
      var last := links[|links| - 1];
      assert last in links;
      HouseEntries(links[..|links| - 1], users, props) + (if last.isActive then [EntryFor(last, users, props)] else [])
  }

  /** The k-th entry pairs the k-th active link with its resident and property, and there is one entry per active link. */
  lemma {:induction false} HouseEntriesShape(links: seq<PropertyResident>, users: map<nat, User>, props: map<nat, Property>)
    requires LinksResolve(links, users, props)
    ensures |HouseEntries(links, users, props)| == |Filter(links, IsActive)|
    ensures forall k :: 0 <= k < |Filter(links, IsActive)| ==>
      HouseEntries(links, users, props)[k] == EntryFor(Filter(links, IsActive)[k], users, props)
  {
    if links != [] {
      var front := links[..|links| - 1];
      var last := links[|links| - 1];
      assert links == front + [last];
      HouseEntriesShape(front, users, props);
      FilterAppend(front, [last], IsActive);
      if last.isActive {
        assert Filter([last], IsActive) == [last];
      } else {
        assert Filter([last], IsActive) == [];
      }
    }
  }

  /**
   * `residents_with_house_view`: one entry per active link, in order, pairing
   * the resident with the assignment's details.
   */
  method ResidentsWithHouse(links: seq<PropertyResident>, users: map<nat, User>, props: map<nat, Property>) returns (out: seq<ResidentWithHouse>)
    requires LinksResolve(links, users, props)
    ensures out == HouseEntries(links, users, props)
  {
    out := [];
    var i := 0;
    while i < |links|
      invariant 0 <= i <= |links|
      invariant out == HouseEntries(links[..i], users, props)
    {
      assert links[..i + 1][..i] == links[..i];
      var l := links[i];
      if l.isActive {
        out := out + [EntryFor(l, users, props)];
      }
      i := i + 1;
    }
    assert links[..i] == links;
  }
}
