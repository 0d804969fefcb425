/**
 * The four hosted tables, as in-memory maps from primary key (`id`, or a
 * goal's `type`) to row; `upsert` inserts or replaces the row under its key.
 */
module Remote {
  import opened Wire

  datatype RemoteState = RemoteState(
    sessions: map<string, SessionRow>,
    entries: map<string, EntryRow>,
    markers: map<string, MarkerRow>,
    goals: map<string, GoalRow>)

  class RemoteStore {
    var sessions: map<string, SessionRow>
    var entries: map<string, EntryRow>
    var markers: map<string, MarkerRow>
    var goals: map<string, GoalRow>

    constructor (init: RemoteState)
      ensures State() == init
    {
      sessions, entries, markers, goals := init.sessions, init.entries, init.markers, init.goals;
    }

    function State(): RemoteState
      reads this
    {
      RemoteState(sessions, entries, markers, goals)
    }

    method UpsertSession(row: SessionRow)
      modifies this
      ensures sessions == old(sessions)[row.id := row]
      ensures entries == old(entries) && markers == old(markers) && goals == old(goals)
    {
      sessions := sessions[row.id := row];
    }

    method UpsertEntry(row: EntryRow)
      modifies this
      ensures entries == old(entries)[row.id := row]
      ensures sessions == old(sessions) && markers == old(markers) && goals == old(goals)
    {
      entries := entries[row.id := row];
    }

    method UpsertMarker(row: MarkerRow)
      modifies this
      ensures markers == old(markers)[row.id := row]
      ensures sessions == old(sessions) && entries == old(entries) && goals == old(goals)
    {
      markers := markers[row.id := row];
    }

    method UpsertGoal(row: GoalRow)
      modifies this
      ensures goals == old(goals)[row.goalType := row]
      ensures sessions == old(sessions) && entries == old(entries) && markers == old(markers)
    {
      goals := goals[row.goalType := row];
    }
  }
}
