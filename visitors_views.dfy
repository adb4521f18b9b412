/** The visitor views (`apps/visitor_control/views.py`): check-out and the list. */
module VisitorViews {
  import opened Base
  import opened Text
  import opened Query
  import opened Visitors

  /** The position of the active log with the given id (`get(id=..., is_active=True)`). */
  function ActiveIndex(logs: seq<VisitorLog>, id: nat): (o: Option<nat>)
    ensures o.Some? ==> o.value < |logs| && logs[o.value].id == id && logs[o.value].isActive
    ensures o.None? <==> forall i :: 0 <= i < |logs| ==> !(logs[i].id == id && logs[i].isActive)
    decreases |logs|
  {
    if logs == [] then None
    else if logs[0].id == id && logs[0].isActive then Some(0)
    else match ActiveIndex(logs[1..], id)
      case None =>
        assert forall i :: 1 <= i < |logs| ==> logs[i] == logs[1..][i - 1];
        None
      case Some(k) => Some(k + 1)
  }

  /** The log after check-out: outside, with the check-out time stamped; nothing else differs. */
  function CheckedOut(log: VisitorLog, now: int): (c: VisitorLog)
    ensures !c.isActive && c.checkOutTime == Some(now)
    ensures c.(isActive := log.isActive, checkOutTime := log.checkOutTime) == log
  {
    log.(isActive := false, checkOutTime := Some(now))
  }

  datatype CheckOutError = ActiveLogNotFound

  /** `check_out_visitor_view`: only an active log can be checked out; otherwise nothing changes. */
  method CheckOut(book: VisitorBook, id: nat, now: int) returns (r: Result<VisitorLog, CheckOutError>)
    requires book.Valid()
    modifies book
    ensures book.Valid() && book.nextId == old(book.nextId)
    ensures r.Err? <==> ActiveIndex(old(book.logs), id).None?
    ensures r.Err? ==> book.logs == old(book.logs)
    ensures r.Ok? ==>
      var i := ActiveIndex(old(book.logs), id).value;
      r.value == CheckedOut(old(book.logs)[i], now) && book.logs == old(book.logs)[i := r.value]
  {
    var found := ActiveIndex(book.logs, id);
    if found.None? {
      return Err(ActiveLogNotFound);
    }
    var i := found.value;
    var c := CheckedOut(book.logs[i], now);
    book.logs := book.logs[i := c];
    r := Ok(c);
  }

  /** Once checked out, the same log is no longer found active, so a second check-out fails. */
  lemma CheckOutTwiceFails(logs: seq<VisitorLog>, id: nat, now: int)
    requires forall i, j :: 0 <= i < j < |logs| ==> logs[i].id != logs[j].id
    requires ActiveIndex(logs, id).Some?
    ensures var i := ActiveIndex(logs, id).value;
      ActiveIndex(logs[i := CheckedOut(logs[i], now)], id).None?
  {
    var i := ActiveIndex(logs, id).value;
    var after := logs[i := CheckedOut(logs[i], now)];
    forall k | 0 <= k < |after| ensures !(after[k].id == id && after[k].isActive) {
      if k != i {
        assert logs[k].id != logs[i].id;
      }
    }
  }

  function IsActiveLog(log: VisitorLog): bool { log.isActive }

  /** The search of the list: the text occurs, ignoring case, in the name, the document or the vehicle's plate. */
  function MatchesSearch(q: string): VisitorLog -> bool {
    (log: VisitorLog) =>
      || ContainsIgnoreCase(log.fullName, q)
      || ContainsIgnoreCase(log.documentId, q)
      || (log.vehicle.Some? && ContainsIgnoreCase(log.vehicle.value.licensePlate, q))
  }

  /** Newest first: ascending order of the negated check-in time. */
  function NewestFirst(log: VisitorLog): int { -log.checkInTime }

  /** The logs a list request starts from: the active ones, or all when `include_inactive` is "true". */
  function BaseLogs(logs: seq<VisitorLog>, includeInactive: Option<string>): seq<VisitorLog> {
    if includeInactive == Some("true") then logs else Filter(logs, IsActiveLog)
  }

  /** The logs the list shows: active unless `include_inactive` is "true", and matching the search when one is given. */
  function Shown(includeInactive: Option<string>, search: Option<string>): VisitorLog -> bool {
    (log: VisitorLog) => (includeInactive == Some("true") || log.isActive)
      && (search.Some? && search.value != [] ==> MatchesSearch(search.value)(log))
  }

  /** The narrowing steps of the list are the one filter `Shown`. */
  lemma NarrowedLogsAreOneFilter(logs: seq<VisitorLog>, includeInactive: Option<string>, search: Option<string>)
    ensures (if search.Some? && search.value != [] then Filter(BaseLogs(logs, includeInactive), MatchesSearch(search.value))
             else BaseLogs(logs, includeInactive)) == Filter(logs, Shown(includeInactive, search))
  {
    var base := (log: VisitorLog) => includeInactive == Some("true") || log.isActive;
    if includeInactive == Some("true") {
      FilterAll(logs, base);
    } else {
      FilterExt(logs, IsActiveLog, base);
    }
    FilterIf(logs, base, search.Some? && search.value != [], MatchesSearch(search.GetOr("")), Shown(includeInactive, search));
  }

  /**
   * `VisitorLogListCreateView.get_queryset`: the selection is narrowed step
   * by step (active by default, then the search when one is given) and
   * ordered by check-in time, newest first.
   */
  method ListLogs(logs: seq<VisitorLog>, includeInactive: Option<string>, search: Option<string>) returns (qs: seq<VisitorLog>)
    ensures includeInactive != Some("true") ==> forall log :: log in qs ==> log.isActive
    ensures forall log :: log in qs <==>
      log in logs && (includeInactive == Some("true") || log.isActive)
      && (search.None? || search.value == [] || MatchesSearch(search.value)(log))
    ensures var chosen := if search.Some? && search.value != [] then Filter(BaseLogs(logs, includeInactive), MatchesSearch(search.value))
                          else BaseLogs(logs, includeInactive);
      multiset(qs) == multiset(chosen)
    ensures qs == SortBy(Filter(logs, Shown(includeInactive, search)), NewestFirst)
    ensures forall i, j :: 0 <= i < j < |qs| ==> qs[i].checkInTime >= qs[j].checkInTime
  {
    qs := Filter(logs, IsActiveLog);
    if includeInactive == Some("true") {
      qs := logs;
    }
    if search.Some? && search.value != [] {
      qs := Filter(qs, MatchesSearch(search.value));
    }
    var chosen := qs;
    qs := SortBy(qs, NewestFirst);
    forall log ensures log in qs <==> log in chosen {
      SortByMembers(chosen, NewestFirst, log);
    }
    assert forall i, j :: 0 <= i < j < |qs| ==> NewestFirst(qs[i]) <= NewestFirst(qs[j]);
    NarrowedLogsAreOneFilter(logs, includeInactive, search);
  }
}
