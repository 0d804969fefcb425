/**
 * The snake-case rows of the remote tables and the two field mappings of
 * src/lib/sync.js: local record to wire row (push) and wire row to local
 * record (pull).
 */
module Wire {
  import opened Optional
  import opened Records

  datatype SessionRow = SessionRow(id: string, userId: string, dateIso: string, notes: Option<string>)

  datatype EntryRow = EntryRow(
    id: string,
    userId: string,
    sessionId: Option<string>,
    ts: int,
    zoneId: string,
    isThree: Option<bool>,
    shotType: string,
    subtype: Option<string>,
    pressured: Option<bool>,
    attempts: int,
    makes: int,
    markerId: Option<string>)

  datatype MarkerRow = MarkerRow(id: string, userId: string, sessionId: Option<string>, ts: int, caption: string)

  datatype GoalRow = GoalRow(goalType: string, userId: string, target: int)

  function SessionRowKey(r: SessionRow): string { r.id }
  function EntryRowKey(r: EntryRow): string { r.id }
  function MarkerRowKey(r: MarkerRow): string { r.id }
  function GoalRowKey(r: GoalRow): string { r.goalType }

  // ---- push: local record to wire row, stamped with the user's id ----

  function SessionToRow(s: Session, uid: string): (r: SessionRow)
    ensures SessionRowKey(r) == SessionKey(s) && r.userId == uid
  {
    SessionRow(s.id, uid, s.dateISO, s.notes)
  }

  function EntryToRow(e: Entry, uid: string): (r: EntryRow)
    ensures EntryRowKey(r) == EntryKey(e) && r.userId == uid
    // the two flags are always sent as booleans; absent is false
    ensures r.isThree == Some(IsThree(e)) && r.pressured == Some(Truthy(e.pressured))
  {
    EntryRow(e.id, uid, e.sessionId, e.ts, e.zoneId, Some(Truthy(e.isThree)), e.shotType,
             e.subtype, Some(Truthy(e.pressured)), e.attempts, e.makes, e.markerId)
  }

  function MarkerToRow(m: Marker, uid: string): (r: MarkerRow)
    ensures MarkerRowKey(r) == MarkerKey(m) && r.userId == uid
  {
    MarkerRow(m.id, uid, m.sessionId, m.ts, m.caption)
  }

  function GoalToRow(g: Goal, uid: string): (r: GoalRow)
    ensures GoalRowKey(r) == GoalKey(g) && r.userId == uid
  {
    GoalRow(g.goalType, uid, g.target)
  }

  // ---- pull: wire row to local record, with the pull-side defaults ----

  function SessionFromRow(r: SessionRow): (s: Session)
    ensures SessionKey(s) == SessionRowKey(r)
    ensures s.notes.Some? && (r.notes.None? ==> s.notes == Some(""))
  {
    Session(r.id, r.dateIso, Some(r.notes.GetOr("")))
  }

  function EntryFromRow(r: EntryRow): (e: Entry)
    ensures EntryKey(e) == EntryRowKey(r)
    ensures r.subtype.None? ==> e.subtype == Some("none")
    ensures e.isThree == Some(Truthy(r.isThree)) && e.pressured == Some(Truthy(r.pressured))
    ensures e.markerId == r.markerId
  {
    Entry(r.id, r.sessionId, r.ts, r.zoneId, Some(Truthy(r.isThree)), r.shotType,
          Some(r.subtype.GetOr("none")), Some(Truthy(r.pressured)), r.attempts, r.makes, r.markerId)
  }

  function MarkerFromRow(r: MarkerRow): (m: Marker)
    ensures MarkerKey(m) == MarkerRowKey(r)
  {
    Marker(r.id, r.sessionId, r.ts, r.caption)
  }

  function GoalFromRow(r: GoalRow): (g: Goal)
    ensures GoalKey(g) == GoalRowKey(r)
  {
    Goal(r.goalType, r.target)
  }

  // ---- round trips ----

  /** A local session with its optional field present. */
  predicate SessionPopulated(s: Session) { s.notes.Some? }

  /** A local entry whose optional fields (other than the marker link) are present. */
  predicate EntryPopulated(e: Entry) {
    e.isThree.Some? && e.subtype.Some? && e.pressured.Some?
  }

  /** A wire row with no null in the columns pull gives a default to. */
  predicate SessionRowPopulated(r: SessionRow) { r.notes.Some? }

  predicate EntryRowPopulated(r: EntryRow) {
    r.isThree.Some? && r.subtype.Some? && r.pressured.Some?
  }

  /** Push then pull gives back a fully populated session, and only such a session. */
  lemma SessionRoundTrip(s: Session, uid: string)
    ensures SessionFromRow(SessionToRow(s, uid)) == s <==> SessionPopulated(s)
  {
  }

  /** Push then pull gives back a fully populated entry, and only such an entry. */
  lemma EntryRoundTrip(e: Entry, uid: string)
    ensures EntryFromRow(EntryToRow(e, uid)) == e <==> EntryPopulated(e)
  {
    if EntryPopulated(e) {
      TruthyPresent(e.isThree);
      TruthyPresent(e.pressured);
    }
  }

  lemma MarkerRoundTrip(m: Marker, uid: string)
    ensures MarkerFromRow(MarkerToRow(m, uid)) == m
  {
  }

  lemma GoalRoundTrip(g: Goal, uid: string)
    ensures GoalFromRow(GoalToRow(g, uid)) == g
  {
  }

  /** Pull then push gives back a row without nulls, stamped with the same user. */
  lemma SessionRowRoundTrip(r: SessionRow)
    ensures SessionToRow(SessionFromRow(r), r.userId) == r <==> SessionRowPopulated(r)
  {
  }

  lemma EntryRowRoundTrip(r: EntryRow)
    ensures EntryToRow(EntryFromRow(r), r.userId) == r <==> EntryRowPopulated(r)
  {
    if EntryRowPopulated(r) {
      TruthyPresent(r.isThree);
      TruthyPresent(r.pressured);
    }
  }
}
