/**
 * Communications and their read records (`apps/communications/models.py`).
 * The read records are a set of (communication, user) pairs, which makes the
 * pair unique by construction. Times are minutes on one clock.
 */
module Communications {
  import opened Base

  datatype CommunicationType = Urgent | General | MaintenanceNotice | Event

  function CommunicationTypeCode(t: CommunicationType): string {
    match t
    case Urgent => "urgent"
    case General => "general"
    case MaintenanceNotice => "maintenance"
    case Event => "event"
  }

  datatype Priority = Low | Medium | High

  function PriorityCode(p: Priority): string {
    match p
    case Low => "baja"
    case Medium => "media"
    case High => "alta"
  }

  datatype TargetAudience = AllResidents | OwnersOnly | TenantsOnly

  function TargetAudienceCode(a: TargetAudience): string {
    match a
    case AllResidents => "all_residents"
    case OwnersOnly => "owners_only"
    case TenantsOnly => "tenants_only"
  }

  datatype Communication = Communication(
    id: nat,
    title: string,
    message: string,
    commType: CommunicationType,
    priority: Priority,
    audience: TargetAudience,
    authorId: nat,
    createdAt: int,
    isActive: bool,
    publishedAt: Option<int>,
    expiresAt: Option<int>)

  const DefaultType := General
  const DefaultPriority := Medium
  const DefaultAudience := AllResidents

  /** A new communication: the unset choices take their defaults; active and not yet published. */
  function NewCommunication(id: nat, title: string, message: string, commType: Option<CommunicationType>,
                            priority: Option<Priority>, audience: Option<TargetAudience>, authorId: nat,
                            now: int, expiresAt: Option<int>): (c: Communication)
    ensures c.commType == commType.GetOr(General) && c.priority == priority.GetOr(Medium) && c.audience == audience.GetOr(AllResidents)
    ensures c.isActive && c.publishedAt.None? && c.createdAt == now && c.authorId == authorId
  {
    Communication(id, title, message, commType.GetOr(DefaultType), priority.GetOr(DefaultPriority),
                  audience.GetOr(DefaultAudience), authorId, now, true, None, expiresAt)
  }

  /** The record `save` writes: stamped with `now` when it has no stamp and is active. */
  function Stamped(c: Communication, now: int): (s: Communication)
    ensures c.publishedAt.Some? ==> s == c
    ensures c.publishedAt.None? && c.isActive ==> s == c.(publishedAt := Some(now))
    ensures c.publishedAt.None? && !c.isActive ==> s == c && s.publishedAt.None?
    ensures s.(publishedAt := c.publishedAt) == c
  {
    if c.publishedAt.None? && c.isActive then c.(publishedAt := Some(now)) else c
  }

  /** Saving again never moves an existing stamp. */
  lemma StampIdempotent(c: Communication, now: int, later: int)
    ensures Stamped(Stamped(c, now), later) == Stamped(c, now)
  {
  }

  /** An active communication is published once saved. */
  lemma SavedActiveIsPublished(c: Communication, now: int)
    requires c.isActive
    ensures Stamped(c, now).publishedAt.Some?
  {
  }

  /** The communications by id, the read records, and the next primary key. */
  class Bulletin {
    var communications: map<nat, Communication>
    var readBy: set<(nat, nat)>
    var nextId: nat

    ghost predicate Valid()
      reads this
    {
      && (forall id :: id in communications ==> communications[id].id == id && id < nextId)
      && (forall p :: p in readBy ==> p.0 in communications)
    }

    constructor ()
      ensures Valid() && communications == map[] && readBy == {} && nextId == 1
    {
      communications := map[];
      readBy := {};
      nextId := 1;
    }
  }

  /**
   * `Communication.save`: the stamp is set in place when the record has none
   * and is active, then the record is written.
   */
  method Save(b: Bulletin, c: Communication, now: int) returns (saved: Communication)
    requires b.Valid() && c.id < b.nextId
    modifies b
    ensures b.Valid()
    ensures saved == Stamped(c, now)
    ensures b.communications == old(b.communications)[c.id := saved]
    ensures b.readBy == old(b.readBy) && b.nextId == old(b.nextId)
  {
    saved := c;
    if saved.publishedAt.None? && saved.isActive {
      saved := saved.(publishedAt := Some(now));
    }
    b.communications := b.communications[c.id := saved];
  }
}
