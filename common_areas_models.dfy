/**
 * Common areas (`apps/common_areas/models.py`): a bookable area with daily
 * opening hours, an active flag and a maintenance flag.
 */
module CommonAreas {

  /** A time of day, in minutes since midnight. */
  type Minute = m: int | 0 <= m < 1440

  /** The codes of `CommonArea.AREA_TYPES`. */
  datatype AreaType = SalonSocial | Piscina | Gimnasio | ParqueJardin | CanchaDeportiva | ZonaBbq | Otro

  function AreaTypeCode(t: AreaType): string {
    match t
    case SalonSocial => "salon_social"
    case Piscina => "piscina"
    case Gimnasio => "gimnasio"
    case ParqueJardin => "parque_jardin"
    case CanchaDeportiva => "cancha_deportiva"
    case ZonaBbq => "zona_bbq"
    case Otro => "otro"
  }

  datatype CommonArea = CommonArea(
    id: nat,
    name: string,
    areaType: AreaType,
    location: string,
    capacity: nat,
    startTime: Minute,
    endTime: Minute,
    requiresReservation: bool,
    isActive: bool,
    isMaintenance: bool)

  /** `is_available`: the area is active and not under maintenance. */
  predicate IsAvailable(a: CommonArea) {
    a.isActive && !a.isMaintenance
  }

  /** True when the hours cross midnight (for example 22:00 - 06:00). */
  predicate IsOvernight(a: CommonArea) {
    a.startTime > a.endTime
  }

  /** `is_open_at(check_time)`, both ends of the opening window included. */
  function IsOpenAt(a: CommonArea, t: Minute): (open: bool)
    ensures !IsAvailable(a) ==> !open
    ensures IsAvailable(a) && !IsOvernight(a) ==> (open <==> a.startTime <= t <= a.endTime)
    ensures IsAvailable(a) && IsOvernight(a) ==> (open <==> t >= a.startTime || t <= a.endTime)
  {
    if !IsAvailable(a) then false
    else if a.startTime <= a.endTime then a.startTime <= t <= a.endTime
    else t >= a.startTime || t <= a.endTime
  }

  /** With equal opening and closing times the area is open at exactly that minute. */
  lemma OpenOnlyAtInstant(a: CommonArea, t: Minute)
    requires IsAvailable(a) && a.startTime == a.endTime
    ensures IsOpenAt(a, t) <==> t == a.startTime
  {
  }

  /** An overnight area is open at midnight and at its opening and closing minutes. */
  lemma OvernightOpenAcrossMidnight(a: CommonArea)
    requires IsAvailable(a) && IsOvernight(a)
    ensures IsOpenAt(a, 0) && IsOpenAt(a, 1439) && IsOpenAt(a, a.startTime) && IsOpenAt(a, a.endTime)
    ensures forall t: Minute :: a.endTime < t < a.startTime ==> !IsOpenAt(a, t)
  {
  }
}
