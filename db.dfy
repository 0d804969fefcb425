/**
 * The on-device store of src/lib/db.js: one stored array per key, read with
 * `get(key) ?? []` and rewritten with `update`/`set`. db.js defines only
 * sessions and entries; markers and goals are imported from it elsewhere but
 * not defined there, so they are modelled on the same pattern (markers are
 * prepended like sessions, goals are upserted by their type).
 */
module Db {
  import opened Optional
  import opened Records
  import opened Keyed

  /** A snapshot of the four stored keys; `None` is a key that was never written. */
  datatype LocalState = LocalState(
    sessions: Option<seq<Session>>,
    entries: Option<seq<Entry>>,
    markers: Option<seq<Marker>>,
    goals: Option<seq<Goal>>)

  /** Every goal of `g`'s type replaced by `g`, the rest kept in place. */
  function ReplaceGoal(goals: seq<Goal>, g: Goal): (r: seq<Goal>)
    ensures |r| == |goals|
    ensures forall i :: 0 <= i < |goals| ==>
      r[i] == if goals[i].goalType == g.goalType then g else goals[i]
  {
    MapSeq((x: Goal) => if x.goalType == g.goalType then g else x, goals)
  }

  /** `upsertGoal(g)`: replace the stored goal of the same type, or put `g` first. */
  function UpsertGoalInto(goals: seq<Goal>, g: Goal): seq<Goal>
  {
    if g.goalType in Keys(goals, GoalKey) then ReplaceGoal(goals, g) else [g] + goals
  }

  /** After an upsert `g` is stored, the types are the old ones plus `g`'s, and goals of other types stay. */
  lemma UpsertGoalEffect(goals: seq<Goal>, g: Goal)
    ensures g in UpsertGoalInto(goals, g)
    ensures Keys(UpsertGoalInto(goals, g), GoalKey) == Keys(goals, GoalKey) + {g.goalType}
    ensures forall x :: x in goals && x.goalType != g.goalType ==> x in UpsertGoalInto(goals, g)
  {
    if g.goalType in Keys(goals, GoalKey) {
      ReplaceGoalEffect(goals, g);
    } else {
      KeysAppend([g], goals, GoalKey);
      KeysSingleton(g, GoalKey);
    }
  }

  /** Replacing a goal whose type is stored: `g` is stored, the types stay, and goals of other types stay. */
  lemma ReplaceGoalEffect(goals: seq<Goal>, g: Goal)
    requires g.goalType in Keys(goals, GoalKey)
    ensures g in ReplaceGoal(goals, g)
    ensures Keys(ReplaceGoal(goals, g), GoalKey) == Keys(goals, GoalKey)
    ensures forall x :: x in goals && x.goalType != g.goalType ==> x in ReplaceGoal(goals, g)
  {
    var r := ReplaceGoal(goals, g);
    var x :| x in goals && x.goalType == g.goalType;
    var i :| 0 <= i < |goals| && goals[i] == x;
    assert r[i] == g;
    forall y | y in goals && y.goalType != g.goalType ensures y in r {
      var j :| 0 <= j < |goals| && goals[j] == y;
      assert r[j] == y;
    }
    forall k | k in Keys(r, GoalKey) ensures k in Keys(goals, GoalKey) {
      var y :| y in r && y.goalType == k;
      var j :| 0 <= j < |r| && r[j] == y;
      assert goals[j] in goals;
    }
    forall k | k in Keys(goals, GoalKey) ensures k in Keys(r, GoalKey) {
      var y :| y in goals && y.goalType == k;
      var j :| 0 <= j < |goals| && goals[j] == y;
      assert r[j] in r;
    }
  }

  /** An upsert keeps goal types unique. */
  lemma UpsertGoalDistinct(goals: seq<Goal>, g: Goal)
    requires DistinctKeys(goals, GoalKey)
    ensures DistinctKeys(UpsertGoalInto(goals, g), GoalKey)
  {
    if g.goalType !in Keys(goals, GoalKey) {
      KeysSingleton(g, GoalKey);
      DistinctAppend([g], goals, GoalKey);
    }
  }

  class LocalStore {
    var sessions: Option<seq<Session>>
    var entries: Option<seq<Entry>>
    var markers: Option<seq<Marker>>
    var goals: Option<seq<Goal>>

    /** A store in which nothing has been written yet. */
    constructor ()
      ensures sessions == None && entries == None && markers == None && goals == None
    {
      sessions, entries, markers, goals := None, None, None, None;
    }

    function State(): LocalState
      reads this
    {
      LocalState(sessions, entries, markers, goals)
    }

    /** What `get(key) ?? []` reads for each key. */
    function Sessions(): seq<Session> reads this { sessions.GetOr([]) }
    function Entries(): seq<Entry> reads this { entries.GetOr([]) }
    function Markers(): seq<Marker> reads this { markers.GetOr([]) }
    function Goals(): seq<Goal> reads this { goals.GetOr([]) }

    method GetSessions() returns (r: seq<Session>)
      ensures sessions.None? ==> r == []
      ensures sessions.Some? ==> r == sessions.value
    {
      r := sessions.GetOr([]);
    }

    method GetEntries() returns (r: seq<Entry>)
      ensures entries.None? ==> r == []
      ensures entries.Some? ==> r == entries.value
    {
      r := entries.GetOr([]);
    }

    method GetMarkers() returns (r: seq<Marker>)
      ensures markers.None? ==> r == []
      ensures markers.Some? ==> r == markers.value
    {
      r := markers.GetOr([]);
    }

    method GetGoals() returns (r: seq<Goal>)
      ensures goals.None? ==> r == []
      ensures goals.Some? ==> r == goals.value
    {
      r := goals.GetOr([]);
    }

    /** `update(sessions, (arr = []) => [s, ...arr])`. */
    method AddSession(s: Session)
      modifies this
      ensures sessions == Some([s] + old(Sessions()))
      ensures entries == old(entries) && markers == old(markers) && goals == old(goals)
    {
      sessions := Some([s] + sessions.GetOr([]));
    }

    /** `update(entries, (arr = []) => [...newEntries, ...arr])`: no dedupe. */
    method AddEntries(newEntries: seq<Entry>)
      modifies this
      ensures entries == Some(newEntries + old(Entries()))
      ensures sessions == old(sessions) && markers == old(markers) && goals == old(goals)
    {
      entries := Some(newEntries + entries.GetOr([]));
    }

    /** Assumed to prepend, like `addSession`. */
    method AddMarker(m: Marker)
      modifies this
      ensures markers == Some([m] + old(Markers()))
      ensures sessions == old(sessions) && entries == old(entries) && goals == old(goals)
    {
      markers := Some([m] + markers.GetOr([]));
    }

    /** Assumed to replace the goal of the same type, or prepend a new one. */
    method UpsertGoal(g: Goal)
      modifies this
      ensures goals == Some(UpsertGoalInto(old(Goals()), g))
      ensures sessions == old(sessions) && entries == old(entries) && markers == old(markers)
    {
      goals := Some(UpsertGoalInto(goals.GetOr([]), g));
    }

    /** `set(sessions, [])` and `set(entries, [])`; markers and goals are not touched. */
    method ClearAll()
      modifies this
      ensures sessions == Some([]) && entries == Some([])
      ensures markers == old(markers) && goals == old(goals)
    {
      sessions := Some([]);
      entries := Some([]);
    }
  }
}
