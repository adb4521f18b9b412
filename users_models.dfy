/**
 * Users and their profiles (`apps/users/models.py`): every user may have a
 * `UserProfile` with one of four user types; a resident's profile may carry a
 * `ResidentProfile` with the resident type, the birth date and the free-text
 * house identifier.
 */
module Users {
  import opened Base
  import opened Text

  /** `UserProfile.USER_TYPES`. */
  datatype UserType = Admin | Security | Camera | Resident

  /** `ResidentProfile.RESIDENT_TYPES`. */
  datatype ResidentType = OwnerResident | Family | Tenant

  function UserTypeCode(t: UserType): string {
    match t
    case Admin => "admin"
    case Security => "security"
    case Camera => "camera"
    case Resident => "resident"
  }

  function ResidentTypeCode(t: ResidentType): string {
    match t
    case OwnerResident => "owner"
    case Family => "family"
    case Tenant => "tenant"
  }

  /** The codes of the two enumerations are pairwise distinct, so each code names one choice. */
  lemma CodesAreDistinct(a: UserType, b: UserType, c: ResidentType, d: ResidentType)
    ensures UserTypeCode(a) == UserTypeCode(b) ==> a == b
    ensures ResidentTypeCode(c) == ResidentTypeCode(d) ==> c == d
  {
    if a != b {
      assert UserTypeCode(a)[0] != UserTypeCode(b)[0];
    }
    if c != d {
      assert ResidentTypeCode(c)[0] != ResidentTypeCode(d)[0];
    }
  }

  /** A calendar date, kept as year, month and day because `age` compares them field by field. */
  datatype CalDate = CalDate(year: int, month: int, day: int)

  /** Chronological order of calendar dates. */
  predicate DateLe(a: CalDate, b: CalDate) {
    a.year < b.year || (a.year == b.year && (a.month < b.month || (a.month == b.month && a.day <= b.day)))
  }

  /** `(today.month, today.day) < (birth.month, birth.day)` as Python compares tuples. */
  predicate BeforeBirthdayInYear(today: CalDate, birth: CalDate) {
    today.month < birth.month || (today.month == birth.month && today.day < birth.day)
  }

  /** `ResidentProfile.age`: whole years elapsed since the birth date. */
  function Age(birth: CalDate, today: CalDate): (a: int)
    ensures today.year - birth.year - 1 <= a <= today.year - birth.year
    ensures a == today.year - birth.year <==> !BeforeBirthdayInYear(today, birth)
  {
    today.year - birth.year - (if BeforeBirthdayInYear(today, birth) then 1 else 0)
  }

  /** From the birthday on, within a year, the age is the plain difference of years. */
  lemma AgeFromBirthday(birth: CalDate, today: CalDate)
    requires !BeforeBirthdayInYear(today, birth)
    ensures Age(birth, today) == today.year - birth.year
  {
  }

  /** Anyone born on or before today has a non-negative age. */
  lemma AgeNonNegative(birth: CalDate, today: CalDate)
    requires DateLe(birth, today)
    ensures Age(birth, today) >= 0
  {
  }

  /** The age never decreases as today advances. */
  lemma AgeMonotone(birth: CalDate, d1: CalDate, d2: CalDate)
    requires DateLe(d1, d2)
    ensures Age(birth, d1) <= Age(birth, d2)
  {
    if d1.year == d2.year {
      assert BeforeBirthdayInYear(d2, birth) ==> BeforeBirthdayInYear(d1, birth);
    }
  }

  /** Within one year, the day before the birthday and the birthday itself differ by exactly one year of age. */
  lemma AgeStepsAtBirthday(birth: CalDate, before: CalDate, on: CalDate)
    requires before.year == on.year && on.month == birth.month && on.day == birth.day
    requires BeforeBirthdayInYear(before, birth)
    ensures Age(birth, on) == Age(birth, before) + 1
  {
  }

  datatype ResidentProfile = ResidentProfile(residentType: ResidentType, birthDate: CalDate, houseIdentifier: string)

  datatype UserProfile = UserProfile(userType: UserType, phone: string, residentInfo: Option<ResidentProfile>)

  datatype User = User(
    id: nat,
    username: string,
    email: string,
    firstName: string,
    lastName: string,
    isStaff: bool,
    profile: Option<UserProfile>)

  /** `hasattr(user, 'profile') and user.profile.user_type == 'resident'`, the check many views repeat. */
  predicate IsResidentUser(u: User) {
    u.profile.Some? && u.profile.value.userType == Resident
  }

  /** True when the user has a resident profile attached (`hasattr(user.profile, 'resident_info')`). */
  predicate HasResidentInfo(u: User) {
    u.profile.Some? && u.profile.value.residentInfo.Some?
  }

  function DisplayName(u: User): string {
    FullName(u.firstName, u.lastName)
  }

  /** The user with its house identifier replaced, when it has a resident profile; otherwise unchanged. */
  function WithHouseIdentifier(u: User, ident: string): (v: User)
    ensures HasResidentInfo(u) ==> HasResidentInfo(v) && v.profile.value.residentInfo.value.houseIdentifier == ident
    ensures HasResidentInfo(u) ==> v.profile.value.residentInfo.value.(houseIdentifier := u.profile.value.residentInfo.value.houseIdentifier) == u.profile.value.residentInfo.value
    ensures HasResidentInfo(u) ==> v.(profile := u.profile) == u && v.profile.value.(residentInfo := u.profile.value.residentInfo) == u.profile.value
    ensures !HasResidentInfo(u) ==> v == u
    ensures IsResidentUser(v) == IsResidentUser(u) && HasResidentInfo(v) == HasResidentInfo(u)
  {
    if HasResidentInfo(u) then
      var p := u.profile.value;
      var info := p.residentInfo.value;
      u.(profile := Some(p.(residentInfo := Some(info.(houseIdentifier := ident)))))
    else u
  }
}
