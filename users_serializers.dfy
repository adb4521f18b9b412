/**
 * The user serializers (`apps/users/serializers.py`): the cross-field check of
 * user creation, the records `create` makes, and the defaults of the
 * house-assignment input.
 */
module UserSerializers {
  import opened Base
  import opened Users
  import opened Properties
  import opened Text

  /** The fields `UserCreateSerializer` accepts, after field validation (the password is not modelled). */
  datatype UserCreateInput = UserCreateInput(
    username: string,
    email: string,
    firstName: string,
    lastName: string,
    userType: UserType,
    phone: Option<string>,
    residentType: Option<ResidentType>,
    birthDate: Option<CalDate>,
    houseIdentifier: Option<string>)

  datatype UserInputError = ResidentTypeRequired | BirthDateRequired | PropertyNotFound

  /**
   * `UserCreateSerializer.validate`: a resident needs a resident type, checked
   * first, and then a birth date; other user types need neither.
   */
  function ValidateUserCreate(input: UserCreateInput): (r: Result<UserCreateInput, UserInputError>)
    ensures input.userType != Resident ==> r == Ok(input)
    ensures input.userType == Resident && input.residentType.None? ==> r == Err(ResidentTypeRequired)
    ensures input.userType == Resident && input.residentType.Some? && input.birthDate.None? ==> r == Err(BirthDateRequired)
    ensures r.Ok? <==> input.userType != Resident || (input.residentType.Some? && input.birthDate.Some?)
    ensures r.Ok? ==> r.value == input
  {
    if input.userType == Resident then
      if input.residentType.None? then Err(ResidentTypeRequired)
      else if input.birthDate.None? then Err(BirthDateRequired)
      else Ok(input)
    else Ok(input)
  }

  /**
   * `r` is `t` with its `@` at `k` and everything after it lower-cased: the
   * local part before `k` is kept and no `@` follows `k`.
   */
  predicate DomainLowered(t: string, k: nat, r: string) {
    && k < |t| && |r| == |t| && r[..k] == t[..k] && r[k] == '@'
    && (forall i :: k < i < |t| ==> r[i] == LowerChar(t[i]) && r[i] != '@')
  }

  /** Lower-casing after the last `@` of `t` gives its domain-lowered form. */
  lemma LowerAfterLastAt(t: string, k: nat)
    requires LastIndexOf(t, '@') == Some(k)
    ensures DomainLowered(t, k, t[..k] + "@" + ToLower(t[k + 1..]))
  {
    var d := ToLower(t[k + 1..]);
    var r := t[..k] + "@" + d;
    assert r[..k] == t[..k];
    forall i | k < i < |t| ensures r[i] == LowerChar(t[i]) && r[i] != '@' {
      assert r[i] == d[i - k - 1];
    }
  }

  /**
   * Django's `BaseUserManager.normalize_email`, which `create_user` applies:
   * when the stripped address contains an `@`, the part after the last `@`
   * is lower-cased and the part before it kept; an address without `@` is
   * stored exactly as given, unstripped.
   */
  function NormalizeEmail(email: string): (r: string)
    ensures LastIndexOf(Strip(email), '@').None? ==> r == email
    ensures LastIndexOf(Strip(email), '@').Some? ==> DomainLowered(Strip(email), LastIndexOf(Strip(email), '@').value, r)
  {
    var t := Strip(email);
    match LastIndexOf(t, '@')
    case None => email
    case Some(k) =>
      LowerAfterLastAt(t, k);
      t[..k] + "@" + ToLower(t[k + 1..])
  }

  /**
   * An address written as a local part, an `@` and a domain without `@`, with
   * nothing to strip at either end, is stored with only its domain lower-cased.
   */
  lemma NormalizeSplitAddress(local: string, domain: string)
    requires local != [] ==> !IsSpace(local[0])
    requires domain != [] ==> !IsSpace(domain[|domain| - 1])
    requires forall i :: 0 <= i < |domain| ==> domain[i] != '@'
    ensures NormalizeEmail(local + "@" + domain) == local + "@" + ToLower(domain)
  {
    var e := local + "@" + domain;
    var k := |local|;
    assert !IsSpace(e[0]) by {
      if local != [] { assert e[0] == local[0]; }
    }
    assert !IsSpace(e[|e| - 1]) by {
      if domain != [] { assert e[|e| - 1] == domain[|domain| - 1]; }
    }
    StripLeftFixed(e);
    StripRightFixed(e);
    forall i | k < i < |e| ensures e[i] != '@' {
      assert e[i] == domain[i - k - 1];
    }
    LastIndexOfAt(e, '@', k);
    assert e[..k] == local && e[k + 1..] == domain;
  }

  /** The parts of a normalised address again meet the conditions of `NormalizeSplitAddress`. */
  lemma NormalizedParts(t: string, k: nat)
    requires LastIndexOf(t, '@') == Some(k)
    requires !IsSpace(t[0]) && !IsSpace(t[|t| - 1])
    ensures var local, d := t[..k], ToLower(t[k + 1..]);
      && (local != [] ==> !IsSpace(local[0]))
      && (d != [] ==> !IsSpace(d[|d| - 1]))
      && (forall i :: 0 <= i < |d| ==> d[i] != '@')
  {
    var tail := t[k + 1..];
    var d := ToLower(tail);
    if k > 0 {
      assert t[..k][0] == t[0];
    }
    if d != [] {
      assert tail[|tail| - 1] == t[|t| - 1];
    }
    forall i | 0 <= i < |d| ensures d[i] != '@' {
      assert tail[i] == t[k + 1 + i];
    }
  }

  /** A stored address is already normal: `normalize_email` changes it no further. */
  lemma NormalizeEmailIdempotent(email: string)
    ensures NormalizeEmail(NormalizeEmail(email)) == NormalizeEmail(email)
  {
    var t := Strip(email);
    match LastIndexOf(t, '@')
    case None =>
    case Some(k) =>
      var local, d := t[..k], ToLower(t[k + 1..]);
      assert NormalizeEmail(email) == local + "@" + d;
      NormalizedParts(t, k);
      NormalizeSplitAddress(local, d);
      ToLowerIdempotent(t[k + 1..]);
  }

  /**
   * `UserCreateSerializer.create`: the user, its profile (phone defaults to
   * empty) and, iff the user is a resident with both resident fields, its
   * resident profile (house identifier defaults to empty). `id` is the key the
   * database assigns.
   */
  function CreateUser(id: nat, input: UserCreateInput): (u: User)
    ensures u.id == id && u.username == input.username && u.email == NormalizeEmail(input.email)
    ensures u.firstName == input.firstName && u.lastName == input.lastName && !u.isStaff
    ensures u.profile.Some? && u.profile.value.userType == input.userType
    ensures u.profile.value.phone == input.phone.GetOr("")
    ensures HasResidentInfo(u) <==> input.userType == Resident && input.residentType.Some? && input.birthDate.Some?
    ensures HasResidentInfo(u) ==>
      u.profile.value.residentInfo.value == ResidentProfile(input.residentType.value, input.birthDate.value, input.houseIdentifier.GetOr(""))
  {
    var info :=
      if input.userType == Resident && input.residentType.Some? && input.birthDate.Some? then
        Some(ResidentProfile(input.residentType.value, input.birthDate.value, input.houseIdentifier.GetOr("")))
      else None;
    User(id, input.username, NormalizeEmail(input.email), input.firstName, input.lastName, false,
         Some(UserProfile(input.userType, input.phone.GetOr(""), info)))
  }

  /** Every resident that passes validation is created with a resident profile. */
  lemma ValidatedResidentGetsResidentInfo(id: nat, input: UserCreateInput)
    requires input.userType == Resident && ValidateUserCreate(input).Ok?
    ensures IsResidentUser(CreateUser(id, input)) && HasResidentInfo(CreateUser(id, input))
  {
  }

  /** The validated input of `AssignHouseSerializer`. */
  datatype AssignHouseData = AssignHouseData(propertyId: nat, relationship: string, isPrimaryResident: bool)

  /**
   * `AssignHouseSerializer`: the property must exist; the relationship defaults
   * to 'resident' and the primary flag to false.
   */
  function ValidateAssignHouse(props: map<nat, Property>, propertyId: int, relationship: Option<string>, isPrimary: Option<bool>)
    : (r: Result<AssignHouseData, UserInputError>)
    ensures r.Ok? <==> propertyId >= 0 && propertyId as nat in props
    ensures r.Err? ==> r.error == PropertyNotFound
    ensures r.Ok? ==> r.value.propertyId == propertyId
    ensures r.Ok? && relationship.None? ==> r.value.relationship == "resident"
    ensures r.Ok? && relationship.Some? ==> r.value.relationship == relationship.value
    ensures r.Ok? ==> r.value.isPrimaryResident == (isPrimary.Some? && isPrimary.value)
  {
    if propertyId < 0 || propertyId as nat !in props then Err(PropertyNotFound)
    else Ok(AssignHouseData(propertyId as nat, relationship.GetOr("resident"), isPrimary.GetOr(false)))
  }
}
