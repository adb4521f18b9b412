/**
 * Intrusion alerts and their views (`apps/security/views.py`): resolving an
 * alert and the alert list. The alert store is a sequence of rows.
 */
module Security {
  import opened Base
  import opened Text
  import opened Query

  /** An alert; the confidence is in hundredths, times are minutes on one clock. */
  datatype IntrusionLog = IntrusionLog(
    id: nat,
    message: string,
    confidence: Option<int>,
    detectionTime: int,
    cameraIdentifier: string,
    isResolved: bool,
    resolvedBy: Option<nat>)

  class IntrusionBoard {
    var logs: seq<IntrusionLog>

    ghost predicate Valid()
      reads this
    {
      forall i, j :: 0 <= i < j < |logs| ==> logs[i].id != logs[j].id
    }

    constructor ()
      ensures Valid() && logs == []
    {
      logs := [];
    }
  }

  function IndexOfLog(logs: seq<IntrusionLog>, id: nat): (o: Option<nat>)
    ensures o.Some? ==> o.value < |logs| && logs[o.value].id == id
    ensures o.None? <==> forall i :: 0 <= i < |logs| ==> logs[i].id != id
    decreases |logs|
  {
    if logs == [] then None
    else if logs[0].id == id then Some(0)
    else match IndexOfLog(logs[1..], id)
      case None =>
        assert forall i :: 1 <= i < |logs| ==> logs[i] == logs[1..][i - 1];
        None
      case Some(k) => Some(k + 1)
  }

  /** The alert after a resolve request: unchanged if already resolved, else resolved by the caller. */
  function Resolved(log: IntrusionLog, caller: nat): (r: IntrusionLog)
    ensures log.isResolved ==> r == log
    ensures !log.isResolved ==> r.isResolved && r.resolvedBy == Some(caller)
    ensures r.(isResolved := log.isResolved, resolvedBy := log.resolvedBy) == log
  {
    if log.isResolved then log else log.(isResolved := true, resolvedBy := Some(caller))
  }

  /** Resolving again, by anyone, changes nothing: the first resolver is kept. */
  lemma ResolveIdempotent(log: IntrusionLog, first: nat, second: nat)
    ensures Resolved(Resolved(log, first), second) == Resolved(log, first)
    ensures !log.isResolved ==> Resolved(Resolved(log, first), second).resolvedBy == Some(first)
  {
  }

  datatype SecurityError = LogNotFound

  /**
   * `mark_as_resolved_view`: an unknown alert is not found; an already
   * resolved one is left as it is (the flag in the result says so); otherwise
   * it is resolved by the caller.
   */
  method MarkResolved(board: IntrusionBoard, id: nat, caller: nat) returns (r: Result<(IntrusionLog, bool), SecurityError>)
    requires board.Valid()
    modifies board
    ensures board.Valid()
    ensures r.Err? <==> IndexOfLog(old(board.logs), id).None?
    ensures r.Err? ==> board.logs == old(board.logs)
    ensures r.Ok? ==>
      var i := IndexOfLog(old(board.logs), id).value;
      && r.value.0 == Resolved(old(board.logs)[i], caller)
      && (r.value.1 <==> old(board.logs)[i].isResolved)
      && board.logs == old(board.logs)[i := r.value.0]
  {
    var found := IndexOfLog(board.logs, id);
    if found.None? {
      return Err(LogNotFound);
    }
    var i := found.value;
    var log := board.logs[i];
    if log.isResolved {
      return Ok((log, true));
    }
    log := log.(isResolved := true, resolvedBy := Some(caller));
    assert forall k :: 0 <= k < |board.logs| ==> board.logs[i := log][k].id == board.logs[k].id;
    board.logs := board.logs[i := log];
    r := Ok((log, false));
  }

  /** The list hides resolved alerts when `resolved` is missing, empty or "false". */
  predicate UnresolvedOnly(resolved: Option<string>) {
    resolved.None? || resolved == Some("") || resolved == Some("false")
  }

  function IsUnresolved(log: IntrusionLog): bool { !log.isResolved }

  function CameraMatches(q: string): IntrusionLog -> bool {
    (log: IntrusionLog) => ContainsIgnoreCase(log.cameraIdentifier, q)
  }

  function NewestFirst(log: IntrusionLog): int { -log.detectionTime }

  /** The narrowed queryset before ordering, in stored order. */
  function NarrowedAlerts(logs: seq<IntrusionLog>, resolved: Option<string>, camera: Option<string>): seq<IntrusionLog> {
    var unresolved := if UnresolvedOnly(resolved) then Filter(logs, IsUnresolved) else logs;
    if camera.Some? && camera.value != [] then Filter(unresolved, CameraMatches(camera.value)) else unresolved
  }

  /** The alerts the list shows: unresolved unless asked otherwise, and matching the camera when one is given. */
  function Shown(resolved: Option<string>, camera: Option<string>): IntrusionLog -> bool {
    (log: IntrusionLog) => (UnresolvedOnly(resolved) ==> !log.isResolved)
      && (camera.Some? && camera.value != [] ==> CameraMatches(camera.value)(log))
  }

  /** The narrowing steps of the list are the one filter `Shown`. */
  lemma NarrowedAlertsAreOneFilter(logs: seq<IntrusionLog>, resolved: Option<string>, camera: Option<string>)
    ensures NarrowedAlerts(logs, resolved, camera) == Filter(logs, Shown(resolved, camera))
  {
    var any := (log: IntrusionLog) => true;
    var first := (log: IntrusionLog) => UnresolvedOnly(resolved) ==> !log.isResolved;
    FilterAll(logs, any);
    FilterIf(logs, any, UnresolvedOnly(resolved), IsUnresolved, first);
    FilterIf(logs, first, camera.Some? && camera.value != [], CameraMatches(camera.GetOr("")), Shown(resolved, camera));
  }

  /**
   * `IntrusionLogListCreateView.get_queryset`: narrowed step by step
   * (unresolved by default, then the camera when given) and ordered by
   * detection time, newest first.
   */
  method ListAlerts(logs: seq<IntrusionLog>, resolved: Option<string>, camera: Option<string>) returns (qs: seq<IntrusionLog>)
    ensures forall log :: log in qs <==>
      && log in logs
      && (UnresolvedOnly(resolved) ==> !log.isResolved)
      && (camera.Some? && camera.value != [] ==> ContainsIgnoreCase(log.cameraIdentifier, camera.value))
    ensures multiset(qs) == multiset(NarrowedAlerts(logs, resolved, camera))
    ensures qs == SortBy(Filter(logs, Shown(resolved, camera)), NewestFirst)
    ensures forall i, j :: 0 <= i < j < |qs| ==> qs[i].detectionTime >= qs[j].detectionTime
  {
    qs := logs;
    if UnresolvedOnly(resolved) {
      qs := Filter(qs, IsUnresolved);
    }
    if camera.Some? && camera.value != [] {
      qs := Filter(qs, CameraMatches(camera.value));
    }
    var chosen := qs;
    qs := SortBy(qs, NewestFirst);
    forall log ensures log in qs <==> log in chosen {
      SortByMembers(chosen, NewestFirst, log);
    }
    assert forall i, j :: 0 <= i < j < |qs| ==> NewestFirst(qs[i]) <= NewestFirst(qs[j]);
    NarrowedAlertsAreOneFilter(logs, resolved, camera);
  }
}
