/**
 * The logging screen of src/BatchWizard.jsx: its derived values (whether
 * the chosen zone is a three, today's entries and their totals, the entry a
 * batch is saved as) and the component state its handlers update (the
 * loaded lists, the active session, the sticky form counters), written
 * through to the local store.
 *
 * Fresh ids, the clock and today's date are parameters of the handlers.
 */
module BatchWizard {
  import opened Optional
  import opened Records
  import opened Constants
  import opened Wire
  import opened Db
  import opened Tally

  /** `activeZoneIsThree`: false for the free throw and for a zone not in `ZONES`, else the zone's flag. */
  function ActiveZoneIsThree(zoneId: string): bool {
    if zoneId == "free_throw" then false
    else match FindZone(zoneId)
      case Some(z) => z.isThree
      case None => false
  }

  /** The chosen zone counts as a three exactly when it is one of the five perimeter zones. */
  lemma ActiveZoneIsThreeMeans(zoneId: string)
    ensures ActiveZoneIsThree(zoneId) <==> zoneId in PERIMETER
  {
    if zoneId in PERIMETER {
      PerimeterActive(zoneId);
    } else {
      OffPerimeterInactive(zoneId);
    }
  }

  lemma PerimeterActive(zoneId: string)
    requires zoneId in PERIMETER
    ensures ActiveZoneIsThree(zoneId)
  {
    PerimeterZonesFound();
  }

  lemma OffPerimeterInactive(zoneId: string)
    requires zoneId !in PERIMETER
    ensures !ActiveZoneIsThree(zoneId)
  {
    var found := FindZone(zoneId);
    if zoneId != "free_throw" && found.Some? {
      ThreesAreThePerimeter();
      assert found.value in ZONES && found.value.id == zoneId;
    }
  }

  /** `s.startsWith(prefix)`. */
  predicate StartsWith(s: string, prefix: string) {
    |prefix| <= |s| && s[..|prefix|] == prefix
  }

  /** `sessions.find(s => s.dateISO.startsWith(day))`: the first session of that day. */
  function FirstSessionOn(sessions: seq<Session>, day: string): (r: Option<Session>)
    ensures r.Some? ==> r.value in sessions && StartsWith(r.value.dateISO, day)
    ensures r.None? <==> forall s :: s in sessions ==> !StartsWith(s.dateISO, day)
  {
    if sessions == [] then None
    else if StartsWith(sessions[0].dateISO, day) then Some(sessions[0])
    else
      assert forall s :: s in sessions <==> s == sessions[0] || s in sessions[1..];
      FirstSessionOn(sessions[1..], day)
  }

  /** The session found is the first of that day: no earlier session starts with the day. */
  lemma {:induction false} FirstSessionOnIsFirst(sessions: seq<Session>, day: string)
    ensures FirstSessionOn(sessions, day).Some? ==>
      exists i :: 0 <= i < |sessions| && sessions[i] == FirstSessionOn(sessions, day).value &&
        forall j :: 0 <= j < i ==> !StartsWith(sessions[j].dateISO, day)
  {
    if sessions != [] && !StartsWith(sessions[0].dateISO, day) {
      var rest := sessions[1..];
      FirstSessionOnIsFirst(rest, day);
      if FirstSessionOn(rest, day).Some? {
        var i :| 0 <= i < |rest| && rest[i] == FirstSessionOn(rest, day).value &&
                 forall j :: 0 <= j < i ==> !StartsWith(rest[j].dateISO, day);
        assert sessions[i + 1] == rest[i];
        forall j | 0 <= j < i + 1 ensures !StartsWith(sessions[j].dateISO, day) {
          if j > 0 { assert sessions[j] == rest[j - 1]; }
        }
      }
    } else if sessions != [] {
      assert sessions[0] == FirstSessionOn(sessions, day).value;
    }
  }

  /** The ids of the sessions whose date starts with `day`. */
  function SessionIdsOn(sessions: seq<Session>, day: string): set<string> {
    set s | s in sessions && StartsWith(s.dateISO, day) :: s.id
  }

  /** `todaysEntries`: none without sessions, else the entries of a session dated today, in order. */
  function TodaysEntries(sessions: seq<Session>, entries: seq<Entry>, todayISO: string): seq<Entry> {
    if |sessions| == 0 then [] else EntriesOf(entries, SessionIdsOn(sessions, todayISO))
  }

  /**
   * An entry is one of today's exactly when it belongs to a session whose
   * date starts with today; an entry with no session never is.
   */
  lemma TodaysEntriesMembers(sessions: seq<Session>, entries: seq<Entry>, todayISO: string, e: Entry)
    ensures e in TodaysEntries(sessions, entries, todayISO) <==>
      e in entries && exists s :: s in sessions && StartsWith(s.dateISO, todayISO) && e.sessionId == Some(s.id)
    ensures e.sessionId.None? ==> e !in TodaysEntries(sessions, entries, todayISO)
  {
    if e in TodaysEntries(sessions, entries, todayISO) {
      var s :| s in sessions && StartsWith(s.dateISO, todayISO) && s.id == e.sessionId.value;
    }
    if e in entries && exists s :: s in sessions && StartsWith(s.dateISO, todayISO) && e.sessionId == Some(s.id) {
      var s :| s in sessions && StartsWith(s.dateISO, todayISO) && e.sessionId == Some(s.id);
      assert s.id in SessionIdsOn(sessions, todayISO);
    }
  }

  /** `totalsToday`: the reducer over today's entries. */
  function TotalsToday(sessions: seq<Session>, entries: seq<Entry>, todayISO: string): (t: Totals)
    ensures t.threesMade == Sum(Threes(TodaysEntries(sessions, entries, todayISO))).makes
  {
    SumThrees(TodaysEntries(sessions, entries, todayISO));
    Sum(TodaysEntries(sessions, entries, todayISO))
  }

  /** The entry `addBatch` saves from the form. */
  function NewEntry(id: string, sessionId: Option<string>, ts: int, zoneId: string, shotType: string,
                    subtype: string, pressured: bool, attempts: int, makes: int): Entry
  {
    Entry(id, sessionId, ts, zoneId,
          Some(if shotType == "free_throw" then false else ActiveZoneIsThree(zoneId)),
          shotType,
          Some(if shotType == "off_dribble" then subtype else "none"),
          Some(pressured), attempts, makes, None)
  }

  /**
   * A saved batch is a three exactly when it is not a free throw and was
   * taken from a perimeter zone; it keeps its subtype only for an
   * off-dribble shot; it has no marker; and it survives a push and a pull
   * unchanged.
   */
  lemma NewEntryShape(id: string, sessionId: Option<string>, ts: int, zoneId: string, shotType: string,
                      subtype: string, pressured: bool, attempts: int, makes: int, uid: string)
    ensures var e := NewEntry(id, sessionId, ts, zoneId, shotType, subtype, pressured, attempts, makes);
      && (IsThree(e) <==> shotType != "free_throw" && zoneId in PERIMETER)
      && (shotType != "off_dribble" ==> e.subtype == Some("none"))
      && (shotType == "off_dribble" ==> e.subtype == Some(subtype))
      && e.markerId.None?
      && EntryFromRow(EntryToRow(e, uid)) == e
  {
    ActiveZoneIsThreeMeans(zoneId);
    EntryRoundTrip(NewEntry(id, sessionId, ts, zoneId, shotType, subtype, pressured, attempts, makes), uid);
  }

  /**
   * The session `createNewSession` starts: the given id and date, empty
   * notes, so it survives a push and a pull for any user.
   */
  function NewSession(id: string, nowISO: string): (s: Session)
    ensures s.id == id && s.dateISO == nowISO && s.notes == Some("")
    ensures forall uid :: SessionFromRow(SessionToRow(s, uid)) == s
  {
    var s := Session(id, nowISO, Some(""));
    assert forall uid :: SessionFromRow(SessionToRow(s, uid)) == s by {
      forall uid ensures SessionFromRow(SessionToRow(s, uid)) == s {
        SessionRoundTrip(s, uid);
      }
    }
    s
  }

  /** The sticky form state. */
  datatype FormState = FormState(zoneId: string, shotType: string, subtype: string, pressured: bool, attempts: int, makes: int)

  class Wizard {
    const store: LocalStore
    var sessions: seq<Session>
    var entries: seq<Entry>
    var markers: seq<Marker>
    var activeSessionId: Option<string>
    var zoneId: string
    var shotType: string
    var subtype: string
    var pressured: bool
    var attempts: int
    var makes: int

    function Form(): FormState
      reads this
    {
      FormState(zoneId, shotType, subtype, pressured, attempts, makes)
    }

    constructor (store: LocalStore)
      ensures this.store == store
      ensures sessions == [] && entries == [] && markers == [] && activeSessionId == None
      ensures Form() == FormState("corner_left", "catch_shoot", "none", false, 10, 4)
    {
      this.store := store;
      sessions, entries, markers := [], [], [];
      activeSessionId := None;
      zoneId, shotType, subtype, pressured, attempts, makes := "corner_left", "catch_shoot", "none", false, 10, 4;
    }

    /** The mount effect: load the three lists and pick today's first session, if any. */
    method Load(todayISO: string)
      modifies this
      ensures sessions == store.Sessions() && entries == store.Entries() && markers == store.Markers()
      ensures activeSessionId == match FirstSessionOn(sessions, todayISO)
                                   case Some(s) => Some(s.id)
                                   case None => old(activeSessionId)
      ensures Form() == old(Form())
    {
      var s := store.GetSessions();
      var e := store.GetEntries();
      var m := store.GetMarkers();
      sessions, entries, markers := s, e, m;
      var today := FirstSessionOn(s, todayISO);
      if today.Some? {
        activeSessionId := Some(today.value.id);
      }
    }

    /** Store a new session, show it first and make it active. */
    method CreateNewSession(newId: string, nowISO: string)
      modifies this, store
      ensures store.sessions == Some([NewSession(newId, nowISO)] + old(store.Sessions()))
      ensures store.entries == old(store.entries) && store.markers == old(store.markers) && store.goals == old(store.goals)
      ensures sessions == [NewSession(newId, nowISO)] + old(sessions) && activeSessionId == Some(newId)
      ensures entries == old(entries) && markers == old(markers) && Form() == old(Form())
    {
      var s := NewSession(newId, nowISO);
      store.AddSession(s);
      sessions := [s] + sessions;
      activeSessionId := Some(newId);
    }

    /** `setActiveSessionId(id || null)`: a missing or empty id deselects. */
    method SwitchSession(id: Option<string>)
      modifies this
      ensures activeSessionId == (if id.None? || id.value == "" then None else id)
      ensures sessions == old(sessions) && entries == old(entries) && markers == old(markers) && Form() == old(Form())
    {
      if id.None? || id.value == "" {
        activeSessionId := None;
      } else {
        activeSessionId := id;
      }
    }

    /** Deselect the session; its data stays. */
    method EndSession()
      modifies this
      ensures activeSessionId == None
      ensures sessions == old(sessions) && entries == old(entries) && markers == old(markers) && Form() == old(Form())
    {
      activeSessionId := None;
    }

    /**
     * Create a session when none is active, and return the active id held
     * BEFORE the call: after creating a session it returns the old, missing
     * id, not the new one.
     */
    method EnsureSession(newId: string, nowISO: string) returns (sid: Option<string>)
      modifies this, store
      ensures sid == old(activeSessionId)
      ensures old(activeSessionId).Some? && old(activeSessionId).value != "" ==>
        store.State() == old(store.State()) && sessions == old(sessions) && activeSessionId == old(activeSessionId)
      ensures old(activeSessionId).None? || old(activeSessionId).value == "" ==>
        store.sessions == Some([NewSession(newId, nowISO)] + old(store.Sessions())) &&
        sessions == [NewSession(newId, nowISO)] + old(sessions) && activeSessionId == Some(newId)
      ensures store.entries == old(store.entries) && store.markers == old(store.markers) && store.goals == old(store.goals)
      ensures entries == old(entries) && markers == old(markers) && Form() == old(Form())
    {
      sid := activeSessionId;
      if activeSessionId.Some? && activeSessionId.value != "" {
        return;
      }
      CreateNewSession(newId, nowISO);
    }

    /** Save a "Set" marker for the session `EnsureSession` returns and show it first. */
    method OnMarkSet(newSessionId: string, nowISO: string, markerId: string, now: int)
      modifies this, store
      ensures var m := Marker(markerId, old(activeSessionId), now, "Set");
        markers == [m] + old(markers) && store.markers == Some([m] + old(store.Markers()))
      ensures old(activeSessionId).Some? && old(activeSessionId).value != "" ==>
        store.sessions == old(store.sessions) && sessions == old(sessions) && activeSessionId == old(activeSessionId)
      ensures old(activeSessionId).None? || old(activeSessionId).value == "" ==>
        store.sessions == Some([NewSession(newSessionId, nowISO)] + old(store.Sessions())) &&
        sessions == [NewSession(newSessionId, nowISO)] + old(sessions) && activeSessionId == Some(newSessionId)
      ensures entries == old(entries) && store.entries == old(store.entries) && store.goals == old(store.goals)
      ensures Form() == old(Form())
    {
      var sid := EnsureSession(newSessionId, nowISO);
      var m := Marker(markerId, sid, now, "Set");
      store.AddMarker(m);
      markers := [m] + markers;
    }

    /** The "+10 attempts" button. */
    method OnPlusAttempts()
      modifies this
      ensures Form() == old(Form()).(attempts := old(attempts) + 10)
      ensures sessions == old(sessions) && entries == old(entries) && markers == old(markers)
      ensures activeSessionId == old(activeSessionId)
    {
      attempts := attempts + 10;
    }

    /** The "+1 make" button. */
    method OnPlusMake()
      modifies this
      ensures Form() == old(Form()).(makes := old(makes) + 1)
      ensures sessions == old(sessions) && entries == old(entries) && markers == old(markers)
      ensures activeSessionId == old(activeSessionId)
    {
      makes := makes + 1;
    }

    /**
     * Save one entry built from the form for the session `EnsureSession`
     * returns, show it first, and with `andReset` reset the counters to 10
     * attempts and 0 makes.
     */
    method AddBatch(andReset: bool, newSessionId: string, nowISO: string, entryId: string, now: int)
      modifies this, store
      ensures var e := NewEntry(entryId, old(activeSessionId), now, old(zoneId), old(shotType), old(subtype),
                                old(pressured), old(attempts), old(makes));
        entries == [e] + old(entries) && store.entries == Some([e] + old(store.Entries()))
      ensures andReset ==> attempts == 10 && makes == 0
      ensures !andReset ==> attempts == old(attempts) && makes == old(makes)
      ensures zoneId == old(zoneId) && shotType == old(shotType) && subtype == old(subtype) && pressured == old(pressured)
      ensures old(activeSessionId).Some? && old(activeSessionId).value != "" ==>
        store.sessions == old(store.sessions) && sessions == old(sessions) && activeSessionId == old(activeSessionId)
      ensures old(activeSessionId).None? || old(activeSessionId).value == "" ==>
        store.sessions == Some([NewSession(newSessionId, nowISO)] + old(store.Sessions())) &&
        sessions == [NewSession(newSessionId, nowISO)] + old(sessions) && activeSessionId == Some(newSessionId)
      ensures markers == old(markers) && store.markers == old(store.markers) && store.goals == old(store.goals)
    {
      var sid := EnsureSession(newSessionId, nowISO);
      var e := NewEntry(entryId, sid, now, zoneId, shotType, subtype, pressured, attempts, makes);
      store.AddEntries([e]);
      entries := [e] + entries;
      if andReset {
        attempts := 10;
        makes := 0;
      }
    }
  }
}
