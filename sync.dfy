/**
 * The reconciliation engine of src/lib/sync.js.
 *
 * `PushAllLocal` copies every local record to the remote tables, one upsert
 * per record keyed by id (by type for goals), each row stamped with the
 * user's id. `PullAllRemote` merges the remote result sets into the local
 * store: a record is appended only when its key is not in the set of local
 * keys read before the loop, new entries are appended as one batch, and a
 * remote goal is adopted only when no local goal has its type.
 *
 * The identity provider is the `user` parameter. The remote reads of pull are
 * its four result-set parameters: `None` is a response whose `data` is null
 * (a failed select), read as an empty list.
 */
module Sync {
  import opened Optional
  import opened Records
  import opened Wire
  import opened Keyed
  import opened Db
  import opened Remote

  /** `{ ok: true }`, or `{ ok: false, reason: 'no-user' }`. */
  datatype SyncResult = Ok | NoUser

  // ---------------------------------------------------------------------------
  // Push
  // ---------------------------------------------------------------------------

  /** The row each record is pushed as, stamped with the user's id. */
  function SessionRowOf(uid: string): Session -> SessionRow { s => SessionToRow(s, uid) }
  function EntryRowOf(uid: string): Entry -> EntryRow { e => EntryToRow(e, uid) }
  function MarkerRowOf(uid: string): Marker -> MarkerRow { m => MarkerToRow(m, uid) }
  function GoalRowOf(uid: string): Goal -> GoalRow { g => GoalToRow(g, uid) }

  function SessionRows(ss: seq<Session>, uid: string): seq<SessionRow> { MapSeq(SessionRowOf(uid), ss) }
  function EntryRows(es: seq<Entry>, uid: string): seq<EntryRow> { MapSeq(EntryRowOf(uid), es) }
  function MarkerRows(ms: seq<Marker>, uid: string): seq<MarkerRow> { MapSeq(MarkerRowOf(uid), ms) }
  function GoalRows(gs: seq<Goal>, uid: string): seq<GoalRow> { MapSeq(GoalRowOf(uid), gs) }

  /** The remote tables after pushing the local state `l` as user `uid`. */
  function PushSpec(r: RemoteState, uid: string, l: LocalState): RemoteState {
    RemoteState(
      UpsertAll(r.sessions, SessionRows(l.sessions.GetOr([]), uid), SessionRowKey),
      UpsertAll(r.entries, EntryRows(l.entries.GetOr([]), uid), EntryRowKey),
      UpsertAll(r.markers, MarkerRows(l.markers.GetOr([]), uid), MarkerRowKey),
      UpsertAll(r.goals, GoalRows(l.goals.GetOr([]), uid), GoalRowKey))
  }

  method PushAllLocal(user: Option<User>, local: LocalStore, remote: RemoteStore) returns (res: SyncResult)
    modifies remote
    ensures user.None? ==> res == NoUser && remote.State() == old(remote.State())
    ensures user.Some? ==> res == Ok && remote.State() == PushSpec(old(remote.State()), user.value.id, local.State())
  {
    if user.None? {
      return NoUser;
    }
    var uid := user.value.id;
    var sessions := local.GetSessions();
    var entries := local.GetEntries();
    var markers := local.GetMarkers();
    var goals := local.GetGoals();
    PushSessions(uid, sessions, remote);
    PushEntries(uid, entries, remote);
    PushMarkers(uid, markers, remote);
    PushGoals(uid, goals, remote);
    return Ok;
  }

  /** One upsert per session, in local order. */
  method PushSessions(uid: string, sessions: seq<Session>, remote: RemoteStore)
    modifies remote
    ensures remote.sessions == UpsertAll(old(remote.sessions), SessionRows(sessions, uid), SessionRowKey)
    ensures remote.entries == old(remote.entries) && remote.markers == old(remote.markers) && remote.goals == old(remote.goals)
  {
    ghost var rows := SessionRows(sessions, uid);
    for i := 0 to |sessions|
      invariant remote.sessions == UpsertAll(old(remote.sessions), rows[..i], SessionRowKey)
      invariant remote.entries == old(remote.entries) && remote.markers == old(remote.markers) && remote.goals == old(remote.goals)
    {
      remote.UpsertSession(SessionToRow(sessions[i], uid));
      assert rows[..i + 1][..i] == rows[..i];
    }
    assert rows[..|sessions|] == rows;
  }

  /** One upsert per entry, in local order. */
  method PushEntries(uid: string, entries: seq<Entry>, remote: RemoteStore)
    modifies remote
    ensures remote.entries == UpsertAll(old(remote.entries), EntryRows(entries, uid), EntryRowKey)
    ensures remote.sessions == old(remote.sessions) && remote.markers == old(remote.markers) && remote.goals == old(remote.goals)
  {
    ghost var rows := EntryRows(entries, uid);
    for i := 0 to |entries|
      invariant remote.entries == UpsertAll(old(remote.entries), rows[..i], EntryRowKey)
      invariant remote.sessions == old(remote.sessions) && remote.markers == old(remote.markers) && remote.goals == old(remote.goals)
    {
      remote.UpsertEntry(EntryToRow(entries[i], uid));
      assert rows[..i + 1][..i] == rows[..i];
    }
    assert rows[..|entries|] == rows;
  }

  /** One upsert per marker, in local order. */
  method PushMarkers(uid: string, markers: seq<Marker>, remote: RemoteStore)
    modifies remote
    ensures remote.markers == UpsertAll(old(remote.markers), MarkerRows(markers, uid), MarkerRowKey)
    ensures remote.sessions == old(remote.sessions) && remote.entries == old(remote.entries) && remote.goals == old(remote.goals)
  {
    ghost var rows := MarkerRows(markers, uid);
    for i := 0 to |markers|
      invariant remote.markers == UpsertAll(old(remote.markers), rows[..i], MarkerRowKey)
      invariant remote.sessions == old(remote.sessions) && remote.entries == old(remote.entries) && remote.goals == old(remote.goals)
    {
      remote.UpsertMarker(MarkerToRow(markers[i], uid));
      assert rows[..i + 1][..i] == rows[..i];
    }
    assert rows[..|markers|] == rows;
  }

  /** One upsert per goal, keyed by goal type, in local order. */
  method PushGoals(uid: string, goals: seq<Goal>, remote: RemoteStore)
    modifies remote
    ensures remote.goals == UpsertAll(old(remote.goals), GoalRows(goals, uid), GoalRowKey)
    ensures remote.sessions == old(remote.sessions) && remote.entries == old(remote.entries) && remote.markers == old(remote.markers)
  {
    ghost var rows := GoalRows(goals, uid);
    for i := 0 to |goals|
      invariant remote.goals == UpsertAll(old(remote.goals), rows[..i], GoalRowKey)
      invariant remote.sessions == old(remote.sessions) && remote.entries == old(remote.entries) && remote.markers == old(remote.markers)
    {
      remote.UpsertGoal(GoalToRow(goals[i], uid));
      assert rows[..i + 1][..i] == rows[..i];
    }
    assert rows[..|goals|] == rows;
  }

  // ---------------------------------------------------------------------------
  // Pull
  // ---------------------------------------------------------------------------

  /** The sessions key after pull: each new session is prepended by `addSession`. */
  function PulledSessions(cur: Option<seq<Session>>, rows: seq<SessionRow>): Option<seq<Session>> {
    var local := cur.GetOr([]);
    var news := Adopt(rows, SessionRowKey, SessionFromRow, Keys(local, SessionKey));
    if news == [] then cur else Some(Reverse(news) + local)
  }

  /** The entries key after pull: one `addEntries` of the new batch, only when it is non-empty. */
  function PulledEntries(cur: Option<seq<Entry>>, rows: seq<EntryRow>): Option<seq<Entry>> {
    var local := cur.GetOr([]);
    var news := Adopt(rows, EntryRowKey, EntryFromRow, Keys(local, EntryKey));
    if news == [] then cur else Some(news + local)
  }

  /** The markers key after pull: each new marker is prepended by `addMarker`. */
  function PulledMarkers(cur: Option<seq<Marker>>, rows: seq<MarkerRow>): Option<seq<Marker>> {
    var local := cur.GetOr([]);
    var news := Adopt(rows, MarkerRowKey, MarkerFromRow, Keys(local, MarkerKey));
    if news == [] then cur else Some(Reverse(news) + local)
  }

  /** `upsertGoal` applied to each goal in turn. */
  function UpsertGoals(goals: seq<Goal>, news: seq<Goal>): seq<Goal> {
    if news == [] then goals
    else UpsertGoalInto(UpsertGoals(goals, news[..|news| - 1]), news[|news| - 1])
  }

  /** The goals key after pull: each goal of a type not held locally is upserted. */
  function PulledGoals(cur: Option<seq<Goal>>, rows: seq<GoalRow>): Option<seq<Goal>> {
    var local := cur.GetOr([]);
    var news := Adopt(rows, GoalRowKey, GoalFromRow, Keys(local, GoalKey));
    if news == [] then cur else Some(UpsertGoals(local, news))
  }

  lemma PulledSessionsStep(cur: Option<seq<Session>>, rows: seq<SessionRow>, r: SessionRow)
    ensures PulledSessions(cur, rows + [r]) ==
      if r.id in Keys(cur.GetOr([]), SessionKey) then PulledSessions(cur, rows)
      else Some([SessionFromRow(r)] + PulledSessions(cur, rows).GetOr([]))
  {
    var have := Keys(cur.GetOr([]), SessionKey);
    assert (rows + [r])[..|rows|] == rows;
    var news := Adopt(rows, SessionRowKey, SessionFromRow, have);
    if r.id !in have {
      assert Adopt(rows + [r], SessionRowKey, SessionFromRow, have) == news + [SessionFromRow(r)];
      ReverseSnoc(news, SessionFromRow(r));
      if news == [] {
        assert news + [SessionFromRow(r)] == [SessionFromRow(r)];
        assert Reverse(news) == [];
        assert Reverse([SessionFromRow(r)]) == [SessionFromRow(r)];
      } else {
        var local := cur.GetOr([]);
        assert Reverse(news + [SessionFromRow(r)]) + local == [SessionFromRow(r)] + (Reverse(news) + local);
      }
    }
  }

  lemma PulledMarkersStep(cur: Option<seq<Marker>>, rows: seq<MarkerRow>, r: MarkerRow)
    ensures PulledMarkers(cur, rows + [r]) ==
      if r.id in Keys(cur.GetOr([]), MarkerKey) then PulledMarkers(cur, rows)
      else Some([MarkerFromRow(r)] + PulledMarkers(cur, rows).GetOr([]))
  {
    var have := Keys(cur.GetOr([]), MarkerKey);
    assert (rows + [r])[..|rows|] == rows;
    var news := Adopt(rows, MarkerRowKey, MarkerFromRow, have);
    if r.id !in have {
      assert Adopt(rows + [r], MarkerRowKey, MarkerFromRow, have) == news + [MarkerFromRow(r)];
      ReverseSnoc(news, MarkerFromRow(r));
      if news == [] {
        assert news + [MarkerFromRow(r)] == [MarkerFromRow(r)];
        assert Reverse(news) == [];
        assert Reverse([MarkerFromRow(r)]) == [MarkerFromRow(r)];
      } else {
        var local := cur.GetOr([]);
        assert Reverse(news + [MarkerFromRow(r)]) + local == [MarkerFromRow(r)] + (Reverse(news) + local);
      }
    }
  }

  lemma PulledGoalsStep(cur: Option<seq<Goal>>, rows: seq<GoalRow>, r: GoalRow)
    ensures PulledGoals(cur, rows + [r]) ==
      if r.goalType in Keys(cur.GetOr([]), GoalKey) then PulledGoals(cur, rows)
      else Some(UpsertGoalInto(PulledGoals(cur, rows).GetOr([]), GoalFromRow(r)))
  {
    assert (rows + [r])[..|rows|] == rows;
    var news := Adopt(rows, GoalRowKey, GoalFromRow, Keys(cur.GetOr([]), GoalKey));
    assert (news + [GoalFromRow(r)])[..|news|] == news;
  }

  /** The local state after pulling the four result sets (`data ?? []`). */
  function PullSpec(l: LocalState, s: Option<seq<SessionRow>>, e: Option<seq<EntryRow>>,
                    m: Option<seq<MarkerRow>>, g: Option<seq<GoalRow>>): LocalState
  {
    LocalState(
      PulledSessions(l.sessions, s.GetOr([])),
      PulledEntries(l.entries, e.GetOr([])),
      PulledMarkers(l.markers, m.GetOr([])),
      PulledGoals(l.goals, g.GetOr([])))
  }

  method PullAllRemote(user: Option<User>, sRes: Option<seq<SessionRow>>, eRes: Option<seq<EntryRow>>,
                       mRes: Option<seq<MarkerRow>>, gRes: Option<seq<GoalRow>>, local: LocalStore)
    returns (res: SyncResult)
    modifies local
    ensures user.None? ==> res == NoUser && local.State() == old(local.State())
    ensures user.Some? ==> res == Ok && local.State() == PullSpec(old(local.State()), sRes, eRes, mRes, gRes)
  {
    if user.None? {
      return NoUser;
    }
    PullSessions(sRes.GetOr([]), local);
    PullEntries(eRes.GetOr([]), local);
    PullMarkers(mRes.GetOr([]), local);
    PullGoals(gRes.GetOr([]), local);
    return Ok;
  }

  /** Prepends each remote session whose id is not among the ids read before the loop. */
  method PullSessions(rows: seq<SessionRow>, local: LocalStore)
    modifies local
    ensures local.sessions == PulledSessions(old(local.sessions), rows)
    ensures local.entries == old(local.entries) && local.markers == old(local.markers) && local.goals == old(local.goals)
  {
    var localSessions := local.GetSessions();
    var localIds := Keys(localSessions, SessionKey);
    for i := 0 to |rows|
      invariant local.sessions == PulledSessions(old(local.sessions), rows[..i])
      invariant local.entries == old(local.entries) && local.markers == old(local.markers) && local.goals == old(local.goals)
    {
      assert rows[..i + 1] == rows[..i] + [rows[i]];
      PulledSessionsStep(old(local.sessions), rows[..i], rows[i]);
      if rows[i].id !in localIds {
        local.AddSession(SessionFromRow(rows[i]));
      }
    }
    assert rows[..|rows|] == rows;
  }

  /** Collects the remote entries whose id is not local, then appends them in one batch. */
  method PullEntries(rows: seq<EntryRow>, local: LocalStore)
    modifies local
    ensures local.entries == PulledEntries(old(local.entries), rows)
    ensures local.sessions == old(local.sessions) && local.markers == old(local.markers) && local.goals == old(local.goals)
  {
    var localEntries := local.GetEntries();
    var localIds := Keys(localEntries, EntryKey);
    var newEntries: seq<Entry> := [];
    for i := 0 to |rows|
      invariant newEntries == Adopt(rows[..i], EntryRowKey, EntryFromRow, localIds)
    {
      assert rows[..i + 1][..i] == rows[..i];
      if rows[i].id !in localIds {
        newEntries := newEntries + [EntryFromRow(rows[i])];
      }
    }
    assert rows[..|rows|] == rows;
    if |newEntries| > 0 {
      local.AddEntries(newEntries);
    }
  }

  /** Prepends each remote marker whose id is not among the ids read before the loop. */
  method PullMarkers(rows: seq<MarkerRow>, local: LocalStore)
    modifies local
    ensures local.markers == PulledMarkers(old(local.markers), rows)
    ensures local.sessions == old(local.sessions) && local.entries == old(local.entries) && local.goals == old(local.goals)
  {
    var localMarkers := local.GetMarkers();
    var localIds := Keys(localMarkers, MarkerKey);
    for i := 0 to |rows|
      invariant local.markers == PulledMarkers(old(local.markers), rows[..i])
      invariant local.sessions == old(local.sessions) && local.entries == old(local.entries) && local.goals == old(local.goals)
    {
      assert rows[..i + 1] == rows[..i] + [rows[i]];
      PulledMarkersStep(old(local.markers), rows[..i], rows[i]);
      if rows[i].id !in localIds {
        local.AddMarker(MarkerFromRow(rows[i]));
      }
    }
    assert rows[..|rows|] == rows;
  }

  /** Upserts each remote goal whose type no local goal had before the loop. */
  method PullGoals(rows: seq<GoalRow>, local: LocalStore)
    modifies local
    ensures local.goals == PulledGoals(old(local.goals), rows)
    ensures local.sessions == old(local.sessions) && local.entries == old(local.entries) && local.markers == old(local.markers)
  {
    var localGoals := local.GetGoals();
    var localTypes := Keys(localGoals, GoalKey);
    for i := 0 to |rows|
      invariant local.goals == PulledGoals(old(local.goals), rows[..i])
      invariant local.sessions == old(local.sessions) && local.entries == old(local.entries) && local.markers == old(local.markers)
    {
      assert rows[..i + 1] == rows[..i] + [rows[i]];
      PulledGoalsStep(old(local.goals), rows[..i], rows[i]);
      if rows[i].goalType !in localTypes {
        local.UpsertGoal(GoalFromRow(rows[i]));
      }
    }
    assert rows[..|rows|] == rows;
  }
}
