/**
 * The local (camel-case) record shapes kept in the on-device store and in the
 * logging form's state. A field the JavaScript object may lack is an Option.
 */
module Records {
  import opened Optional

  /** A practice session. `notes` may be missing on records written by older code. */
  datatype Session = Session(id: string, dateISO: string, notes: Option<string>)

  /**
   * One logged batch of shots. `sessionId` is null when the batch was saved
   * before any session was active; `markerId` is never set by the logging form.
   */
  datatype Entry = Entry(
    id: string,
    sessionId: Option<string>,
    ts: int,
    zoneId: string,
    isThree: Option<bool>,
    shotType: string,
    subtype: Option<string>,
    pressured: Option<bool>,
    attempts: int,
    makes: int,
    markerId: Option<string>)

  /** A timestamped bookmark in a session; `caption` is the source's `label`. */
  datatype Marker = Marker(id: string, sessionId: Option<string>, ts: int, caption: string)

  /** A numeric target, identified by its `type` (here `goalType`). */
  datatype Goal = Goal(goalType: string, target: int)

  /** The signed-in identity returned by the identity provider. */
  datatype User = User(id: string)

  function SessionKey(s: Session): string { s.id }
  function EntryKey(e: Entry): string { e.id }
  function MarkerKey(m: Marker): string { m.id }
  function GoalKey(g: Goal): string { g.goalType }

  /** `if (e.isThree)`: only an entry whose flag is present and true counts as a three. */
  predicate IsThree(e: Entry) {
    Truthy(e.isThree)
  }
}
