/**
 * The communication views (`apps/communications/views.py`): marking as read,
 * the detail fetch that reads as a side effect, author-only update and soft
 * delete, the list filters and the unread count.
 */
module CommunicationViews {
  import opened Base
  import opened Text
  import opened Query
  import opened Communications
  import opened CommunicationSerializers

  datatype CommunicationError = NotFound | NotAuthor

  /**
   * `mark_as_read`: an unknown communication is not found; otherwise the
   * read record is created unless it exists. The result says whether it was
   * created.
   */
  method MarkAsRead(b: Bulletin, commId: nat, user: nat) returns (r: Result<bool, CommunicationError>)
    requires b.Valid()
    modifies b
    ensures b.Valid() && b.communications == old(b.communications) && b.nextId == old(b.nextId)
    ensures r.Err? <==> commId !in old(b.communications)
    ensures r.Err? ==> r.error == NotFound && b.readBy == old(b.readBy)
    ensures r.Ok? ==> b.readBy == old(b.readBy) + {(commId, user)} && (r.value <==> (commId, user) !in old(b.readBy))
  {
    if commId !in b.communications {
      return Err(NotFound);
    }
    var created := (commId, user) !in b.readBy;
    if created {
      b.readBy := b.readBy + {(commId, user)};
    }
    r := Ok(created);
  }

  /** Marking twice adds one record at most: the second time nothing is created. */
  lemma MarkAsReadTwice(readBy: set<(nat, nat)>, commId: nat, user: nat)
    ensures (commId, user) in readBy + {(commId, user)}
    ensures (readBy + {(commId, user)}) + {(commId, user)} == readBy + {(commId, user)}
  {
  }

  /** `CommunicationDetailView.get_object`: the fetch records a read for the caller. */
  method GetObject(b: Bulletin, commId: nat, user: nat) returns (r: Result<Communication, CommunicationError>)
    requires b.Valid()
    modifies b
    ensures b.Valid() && b.communications == old(b.communications) && b.nextId == old(b.nextId)
    ensures r.Err? <==> commId !in old(b.communications)
    ensures r.Err? ==> r.error == NotFound && b.readBy == old(b.readBy)
    ensures r.Ok? ==> r.value == b.communications[commId] && b.readBy == old(b.readBy) + {(commId, user)}
  {
    if commId !in b.communications {
      return Err(NotFound);
    }
    b.readBy := b.readBy + {(commId, user)};
    r := Ok(b.communications[commId]);
  }

  /** The writable fields of a detail update; an absent field keeps its value. */
  datatype CommunicationPatch = CommunicationPatch(
    title: Option<string>,
    message: Option<string>,
    commType: Option<CommunicationType>,
    priority: Option<Priority>,
    audience: Option<TargetAudience>,
    expiresAt: Option<Option<int>>,
    isActive: Option<bool>)

  /** The record after a patch; the author, the creation time and the stamp are read-only. */
  function Patched(c: Communication, p: CommunicationPatch): (n: Communication)
    ensures n.id == c.id && n.authorId == c.authorId && n.createdAt == c.createdAt && n.publishedAt == c.publishedAt
    ensures n.title == p.title.GetOr(c.title) && n.message == p.message.GetOr(c.message)
    ensures n.commType == p.commType.GetOr(c.commType) && n.priority == p.priority.GetOr(c.priority)
    ensures n.audience == p.audience.GetOr(c.audience) && n.expiresAt == p.expiresAt.GetOr(c.expiresAt)
    ensures n.isActive == p.isActive.GetOr(c.isActive)
  {
    c.(title := p.title.GetOr(c.title), message := p.message.GetOr(c.message), commType := p.commType.GetOr(c.commType),
       priority := p.priority.GetOr(c.priority), audience := p.audience.GetOr(c.audience),
       expiresAt := p.expiresAt.GetOr(c.expiresAt), isActive := p.isActive.GetOr(c.isActive))
  }

  /**
   * `CommunicationDetailView.update`: the fetch marks the communication read
   * even when the caller is then refused for not being the author; the author's
   * patch is saved through `save`.
   */
  method Update(b: Bulletin, commId: nat, user: nat, patch: CommunicationPatch, now: int)
    returns (r: Result<Communication, CommunicationError>)
    requires b.Valid()
    modifies b
    ensures b.Valid() && b.nextId == old(b.nextId)
    ensures r.Err? <==> commId !in old(b.communications) || old(b.communications)[commId].authorId != user
    ensures commId !in old(b.communications) ==> r == Err(NotFound) && b.readBy == old(b.readBy)
    ensures commId in old(b.communications) ==> b.readBy == old(b.readBy) + {(commId, user)}
    ensures commId in old(b.communications) && old(b.communications)[commId].authorId != user ==>
      r == Err(NotAuthor) && b.communications == old(b.communications)
    ensures r.Ok? ==>
      && r.value == Stamped(Patched(old(b.communications)[commId], patch), now)
      && b.communications == old(b.communications)[commId := r.value]
  {
    var found := GetObject(b, commId, user);
    if found.Err? {
      return Err(NotFound);
    }
    var c := found.value;
    if c.authorId != user {
      return Err(NotAuthor);
    }
    var saved := Save(b, Patched(c, patch), now);
    r := Ok(saved);
  }

  /**
   * `CommunicationDetailView.destroy`: the same fetch and author check, then
   * a soft delete: the record stays, inactive.
   */
  method Destroy(b: Bulletin, commId: nat, user: nat, now: int) returns (r: Result<Communication, CommunicationError>)
    requires b.Valid()
    modifies b
    ensures b.Valid() && b.nextId == old(b.nextId)
    ensures b.communications.Keys == old(b.communications).Keys
    ensures r.Err? <==> commId !in old(b.communications) || old(b.communications)[commId].authorId != user
    ensures commId !in old(b.communications) ==> r == Err(NotFound) && b.readBy == old(b.readBy)
    ensures commId in old(b.communications) ==> b.readBy == old(b.readBy) + {(commId, user)}
    ensures commId in old(b.communications) && old(b.communications)[commId].authorId != user ==>
      r == Err(NotAuthor) && b.communications == old(b.communications)
    ensures r.Ok? ==>
      && r.value == old(b.communications)[commId].(isActive := false)
      && b.communications == old(b.communications)[commId := r.value]
  {
    var found := GetObject(b, commId, user);
    if found.Err? {
      return Err(NotFound);
    }
    var c := found.value;
    if c.authorId != user {
      return Err(NotAuthor);
    }
    var saved := Save(b, c.(isActive := false), now);
    r := Ok(saved);
  }

  /** A soft-deleted communication no longer counts as unread for anyone. */
  lemma DestroyedNotUnread(comms: map<nat, Communication>, readBy: set<(nat, nat)>, commId: nat, user: nat, other: nat)
    requires commId in comms
    ensures commId !in UnreadIds(comms[commId := comms[commId].(isActive := false)], readBy, other)
  {
  }

  /** The active communications the user has no read record for. */
  function UnreadIds(comms: map<nat, Communication>, readBy: set<(nat, nat)>, user: nat): (ids: set<nat>)
    ensures forall id :: id in ids <==> id in comms && comms[id].isActive && (id, user) !in readBy
  {
    set id | id in comms && comms[id].isActive && (id, user) !in readBy
  }

  /** `unread_count` of `communication_stats`. */
  function UnreadCount(comms: map<nat, Communication>, readBy: set<(nat, nat)>, user: nat): (n: nat)
    ensures n == 0 <==> forall id :: id in comms && comms[id].isActive ==> (id, user) in readBy
  {
    var ids := UnreadIds(comms, readBy, user);
    assert ids == {} <==> forall id :: id in comms && comms[id].isActive ==> (id, user) in readBy by {
      if ids != {} {
        var id :| id in ids;
      }
    }
    |ids|
  }

  /** Reading an active unread communication lowers the caller's unread count by one; any other read leaves it. */
  lemma UnreadCountAfterRead(comms: map<nat, Communication>, readBy: set<(nat, nat)>, commId: nat, user: nat)
    ensures var before := UnreadCount(comms, readBy, user);
      var after := UnreadCount(comms, readBy + {(commId, user)}, user);
      && (commId in UnreadIds(comms, readBy, user) ==> after == before - 1)
      && (commId !in UnreadIds(comms, readBy, user) ==> after == before)
  {
    var b := UnreadIds(comms, readBy, user);
    var a := UnreadIds(comms, readBy + {(commId, user)}, user);
    assert a == b - {commId};
    if commId !in b {
      assert a == b;
    }
  }

  /** The record is live: active and not expired (`expires_at` null or after now). */
  function IsLive(now: int): Communication -> bool {
    (c: Communication) => c.isActive && (c.expiresAt.None? || c.expiresAt.value > now)
  }

  function HasTypeCode(code: string): Communication -> bool {
    (c: Communication) => CommunicationTypeCode(c.commType) == code
  }

  function HasPriorityCode(code: string): Communication -> bool {
    (c: Communication) => PriorityCode(c.priority) == code
  }

  function HasAudienceCode(code: string): Communication -> bool {
    (c: Communication) => TargetAudienceCode(c.audience) == code
  }

  function MatchesText(q: string): Communication -> bool {
    (c: Communication) => ContainsIgnoreCase(c.title, q) || ContainsIgnoreCase(c.message, q)
  }

  /** A query parameter that narrows the list: present and not empty. */
  predicate Given(param: Option<string>) {
    param.Some? && param.value != []
  }

  function NewestFirst(c: Communication): int { -c.createdAt }

  /** A communication passes every given filter of the list. */
  predicate PassesFilters(c: Communication, commType: Option<string>, priority: Option<string>,
                          audience: Option<string>, search: Option<string>) {
    && (Given(commType) ==> CommunicationTypeCode(c.commType) == commType.value)
    && (Given(priority) ==> PriorityCode(c.priority) == priority.value)
    && (Given(audience) ==> TargetAudienceCode(c.audience) == audience.value)
    && (Given(search) ==> MatchesText(search.value)(c))
  }

  /** The rows the list shows: live and passing every given filter, whatever order the steps take. */
  function ListedBy(commType: Option<string>, priority: Option<string>, audience: Option<string>, search: Option<string>, now: int)
    : Communication -> bool
  {
    (c: Communication) => IsLive(now)(c) && PassesFilters(c, commType, priority, audience, search)
  }

  // The tests applied after each narrowing step.
  function AfterType(commType: Option<string>): Communication -> bool {
    (c: Communication) => c.isActive && (Given(commType) ==> CommunicationTypeCode(c.commType) == commType.value)
  }

  function AfterPriority(commType: Option<string>, priority: Option<string>): Communication -> bool {
    (c: Communication) => AfterType(commType)(c) && (Given(priority) ==> PriorityCode(c.priority) == priority.value)
  }

  function AfterAudience(commType: Option<string>, priority: Option<string>, audience: Option<string>): Communication -> bool {
    (c: Communication) => AfterPriority(commType, priority)(c) && (Given(audience) ==> TargetAudienceCode(c.audience) == audience.value)
  }

  function AfterSearch(commType: Option<string>, priority: Option<string>, audience: Option<string>, search: Option<string>)
    : Communication -> bool
  {
    (c: Communication) => AfterAudience(commType, priority, audience)(c) && (Given(search) ==> MatchesText(search.value)(c))
  }

  // The queryset after each narrowing step, and the lemma that it is one filter by the tests so far.
  function NarrowedByType(table: seq<Communication>, commType: Option<string>): seq<Communication> {
    var q := Filter(table, IsActive);
    if Given(commType) then Filter(q, HasTypeCode(commType.value)) else q
  }

  lemma NarrowedByTypeIsOneFilter(table: seq<Communication>, commType: Option<string>)
    ensures NarrowedByType(table, commType) == Filter(table, AfterType(commType))
  {
    FilterIf(table, IsActive, Given(commType), HasTypeCode(commType.GetOr("")), AfterType(commType));
  }

  function NarrowedByPriority(table: seq<Communication>, commType: Option<string>, priority: Option<string>): seq<Communication> {
    var q := NarrowedByType(table, commType);
    if Given(priority) then Filter(q, HasPriorityCode(priority.value)) else q
  }

  lemma NarrowedByPriorityIsOneFilter(table: seq<Communication>, commType: Option<string>, priority: Option<string>)
    ensures NarrowedByPriority(table, commType, priority) == Filter(table, AfterPriority(commType, priority))
  {
    NarrowedByTypeIsOneFilter(table, commType);
    FilterIf(table, AfterType(commType), Given(priority), HasPriorityCode(priority.GetOr("")), AfterPriority(commType, priority));
  }

  function NarrowedByAudience(table: seq<Communication>, commType: Option<string>, priority: Option<string>, audience: Option<string>)
    : seq<Communication>
  {
    var q := NarrowedByPriority(table, commType, priority);
    if Given(audience) then Filter(q, HasAudienceCode(audience.value)) else q
  }

  lemma NarrowedByAudienceIsOneFilter(table: seq<Communication>, commType: Option<string>, priority: Option<string>, audience: Option<string>)
    ensures NarrowedByAudience(table, commType, priority, audience) == Filter(table, AfterAudience(commType, priority, audience))
  {
    NarrowedByPriorityIsOneFilter(table, commType, priority);
    FilterIf(table, AfterPriority(commType, priority), Given(audience), HasAudienceCode(audience.GetOr("")),
             AfterAudience(commType, priority, audience));
  }

  function NarrowedBySearch(table: seq<Communication>, commType: Option<string>, priority: Option<string>, audience: Option<string>,
                            search: Option<string>)
    : seq<Communication>
  {
    var q := NarrowedByAudience(table, commType, priority, audience);
    if Given(search) then Filter(q, MatchesText(search.value)) else q
  }

  lemma NarrowedBySearchIsOneFilter(table: seq<Communication>, commType: Option<string>, priority: Option<string>, audience: Option<string>,
                                    search: Option<string>)
    ensures NarrowedBySearch(table, commType, priority, audience, search) == Filter(table, AfterSearch(commType, priority, audience, search))
  {
    NarrowedByAudienceIsOneFilter(table, commType, priority, audience);
    FilterIf(table, AfterAudience(commType, priority, audience), Given(search), MatchesText(search.GetOr("")),
             AfterSearch(commType, priority, audience, search));
  }

  /** The narrowing steps, whichever filters are given, are the one filter `ListedBy`. */
  lemma NarrowingIsOneFilter(table: seq<Communication>, commType: Option<string>, priority: Option<string>, audience: Option<string>,
                             search: Option<string>, now: int)
    ensures Filter(NarrowedBySearch(table, commType, priority, audience, search), IsLive(now))
         == Filter(table, ListedBy(commType, priority, audience, search, now))
  {
    NarrowedBySearchIsOneFilter(table, commType, priority, audience, search);
    forall c ensures AfterSearch(commType, priority, audience, search)(c) == (c.isActive && PassesFilters(c, commType, priority, audience, search)) {
      assert AfterAudience(commType, priority, audience)(c) == (AfterPriority(commType, priority)(c)
        && (Given(audience) ==> TargetAudienceCode(c.audience) == audience.value));
      assert AfterPriority(commType, priority)(c) == (AfterType(commType)(c) && (Given(priority) ==> PriorityCode(c.priority) == priority.value));
    }
    FilterConj(table, AfterSearch(commType, priority, audience, search), IsLive(now), ListedBy(commType, priority, audience, search, now));
  }

  /**
   * The narrowing steps of `CommunicationListCreateView.get_queryset`:
   * active, then each given filter (type, priority, audience, text), then
   * not expired. The steps together are the one filter `ListedBy`.
   */
  method NarrowCommunications(table: seq<Communication>, commType: Option<string>, priority: Option<string>,
                              audience: Option<string>, search: Option<string>, now: int)
    returns (qs: seq<Communication>)
    ensures qs == Filter(table, ListedBy(commType, priority, audience, search, now))
    ensures forall c :: c in qs <==> c in table && IsLive(now)(c) && PassesFilters(c, commType, priority, audience, search)
    ensures |qs| <= |table|
  {
    qs := Filter(table, IsActive);
    if Given(commType) {
      qs := Filter(qs, HasTypeCode(commType.value));
    }
    assert qs == NarrowedByType(table, commType);
    if Given(priority) {
      qs := Filter(qs, HasPriorityCode(priority.value));
    }
    assert qs == NarrowedByPriority(table, commType, priority);
    if Given(audience) {
      qs := Filter(qs, HasAudienceCode(audience.value));
    }
    assert qs == NarrowedByAudience(table, commType, priority, audience);
    if Given(search) {
      qs := Filter(qs, MatchesText(search.value));
    }
    assert qs == NarrowedBySearch(table, commType, priority, audience, search);
    qs := Filter(qs, IsLive(now));
    NarrowingIsOneFilter(table, commType, priority, audience, search, now);
  }

  /** `CommunicationListCreateView.get_queryset`: the narrowed rows, newest first. */
  method ListCommunications(table: seq<Communication>, commType: Option<string>, priority: Option<string>,
                            audience: Option<string>, search: Option<string>, now: int)
    returns (qs: seq<Communication>)
    ensures qs == SortBy(Filter(table, ListedBy(commType, priority, audience, search, now)), NewestFirst)
    ensures multiset(qs) == multiset(Filter(table, ListedBy(commType, priority, audience, search, now)))
    ensures forall c :: c in qs <==> c in table && IsLive(now)(c) && PassesFilters(c, commType, priority, audience, search)
    ensures forall i, j :: 0 <= i < j < |qs| ==> qs[i].createdAt >= qs[j].createdAt
    ensures |qs| <= |table|
  {
    var chosen := NarrowCommunications(table, commType, priority, audience, search, now);
    qs := SortBy(chosen, NewestFirst);
    forall c ensures c in qs <==> c in chosen {
      SortByMembers(chosen, NewestFirst, c);
    }
    assert |qs| == |multiset(qs)| == |multiset(chosen)| == |chosen|;
    assert forall i, j :: 0 <= i < j < |qs| ==> NewestFirst(qs[i]) <= NewestFirst(qs[j]);
  }

  function IsActive(c: Communication): bool { c.isActive }
}
