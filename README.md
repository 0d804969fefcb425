# Shot tracker: local/remote sync and shot tallies

This project models the core of a basketball shot tracker in Dafny. The app
logs batches of shots (a zone, a shot type, attempts and makes). Each batch
belongs to a practice session. Everything is kept in an on-device store and
can be copied to and from a hosted database.

What is modelled:

- **The reconciliation engine** (`src/lib/sync.js`):
  - `pushAllLocal` upserts every local session, entry, marker and goal into
    the remote tables. Each row is stamped with the user's id and keyed by
    `id` (goals by `type`).
  - `pullAllRemote` adopts the remote records whose key is not already
    local. Sessions and markers are prepended one by one. New entries are
    prepended as one batch. A remote goal is upserted only when its type is
    new locally.
  - Both operations do nothing when no user is signed in.
- **The local store** (`src/lib/db.js`): a class with one optional sequence
  per stored key. A key that was never written reads as the empty sequence.
- **The remote tables**: a class with four maps from primary key to row.
  An upsert is a map update.
- **The field mappings** (module `Wire`): the defaults and coercions on the
  way out and back in.
- **The logging screen** (`src/BatchWizard.jsx`):
  - its derived values: whether the zone is a three, today's entries, and
    today's totals;
  - its handlers as a class: load, create, switch, end and ensure a
    session, the marker button, the counter buttons, and saving a batch.
- **The tallies of the three statistics screens**:
  - `src/YTDSummary.jsx`: year-to-date filter, totals, per-zone and
    per-shot-type tables sorted by attempts;
  - `src/CourtHeatmap.jsx`: zone table, colour bands, range filter, per-zone
    buckets with percentages;
  - `src/Heatmap.jsx`: zone tallies, the density bound, cell values, cell
    colour.
- **`shade`** in `src/App.jsx`: the `#rrggbb` colour scaling. The colour
  format is the six-digit notation of CSS Color Module Level 4, section 5.2.
- **The lookup tables** of `src/constants.js`.

Both sync operations are methods with loops. Each is proved equal to a
specification function over store snapshots: `Sync.PushSpec` and
`Sync.PullSpec`. The laws of push and pull are lemmas about those functions.
A JavaScript `Map` filled in a loop becomes `Tally.Buckets`: a key order
(insertion order) plus a map.

`clearAll` (src/lib/db.js:24-27) empties sessions and entries only; markers
and goals are untouched.

## Model

| member | source | states |
|---|---|---|
| Sync.PushAllLocal | src/lib/sync.js:4-53 | With no user: returns no-user, and the remote tables are unchanged. With a user: returns ok, and the remote tables become `PushSpec` of the old tables, the user id and the local state. |
| Sync.PushSessions | src/lib/sync.js:14-18 | One upsert per local session, in order; the other tables are unchanged. |
| Sync.PushEntries | src/lib/sync.js:21-36 | One upsert per local entry, in order; the other tables are unchanged. |
| Sync.PushMarkers | src/lib/sync.js:39-43 | One upsert per local marker, in order; the other tables are unchanged. |
| Sync.PushGoals | src/lib/sync.js:46-50 | One upsert per local goal, keyed by type; the other tables are unchanged. |
| Sync.PullAllRemote | src/lib/sync.js:55-117 | With no user: returns no-user, and the local store is unchanged. With a user: returns ok, and the store becomes `PullSpec` of the old state and the four result sets; a missing result set counts as empty. |
| Sync.PullSessions | src/lib/sync.js:73-78 | Prepends each remote session whose id was not local before the loop; the other keys are unchanged. |
| Sync.PullEntries | src/lib/sync.js:80-99 | Collects the remote entries with a new id, in remote order, and prepends them as one batch only when there are any. |
| Sync.PullMarkers | src/lib/sync.js:101-106 | Prepends each remote marker whose id was not local before the loop. |
| Sync.PullGoals | src/lib/sync.js:108-114 | Upserts each remote goal whose type no local goal had before the loop. |
| Sync.PulledSessionsStep | src/lib/sync.js:74-77 | One more remote session changes the result only when its id is not local, and then puts it first. |
| Sync.PulledMarkersStep | src/lib/sync.js:102-105 | One more remote marker changes the result only when its id is not local, and then puts it first. |
| Sync.PulledGoalsStep | src/lib/sync.js:110-113 | One more remote goal changes the result only when its type is not local, and then upserts it. |
| SyncLaws.PushIdempotent | src/lib/sync.js:14-50 | Pushing the same local state twice leaves the remote tables as one push does. |
| SyncLaws.PushRetry | src/lib/sync.js:14-50 | A push that only partly went through, followed by a full push, gives the same tables as one full push. |
| SyncLaws.PushWritesSessionsAndEntries | src/lib/sync.js:14-36 | With unique local ids: the remote ids are the old ids plus the local ids. Each local session and entry is the row under its id, stamped with the user's id. Rows under other ids are untouched. |
| SyncLaws.PushWritesMarkersAndGoals | src/lib/sync.js:39-50 | The same for markers. Each local goal's target overwrites the remote goal of its type, stamped with the user's id. |
| SyncLaws.MergeLaw | src/lib/sync.js:73-106 | Adopting the rows with a new key, before the local records in either order, keeps every local record and adds exactly the new-key remote records. The keys become the local keys plus the remote keys, and unique keys stay unique. |
| SyncLaws.PullSessionsMerge | src/lib/sync.js:73-78 | Pull's sessions obey that merge law. |
| SyncLaws.PullEntriesMerge | src/lib/sync.js:80-99 | Pull's entries obey that merge law. |
| SyncLaws.PullMarkersMerge | src/lib/sync.js:101-106 | Pull's markers obey that merge law. |
| SyncLaws.PullGoalsMerge | src/lib/sync.js:108-114 | Every local goal stays, so a local target is never changed. Every other goal is a remote goal of a type that was not local. The types become the local types plus the remote types. With unique remote types, every new-type remote goal arrives. Unique types stay unique. |
| SyncLaws.UpsertGoalsKeys | src/lib/sync.js:110-113 | Upserting goals one by one leaves the old types plus the new types. |
| SyncLaws.UpsertGoalsKeeps | src/lib/sync.js:110-113 | A stored goal whose type is not upserted stays. |
| SyncLaws.UpsertGoalsStores | src/lib/sync.js:110-113 | Upserted goals of distinct types are all stored. |
| SyncLaws.UpsertGoalsOrigin | src/lib/sync.js:110-113 | Every stored goal afterwards was stored before or was upserted. |
| SyncLaws.UpsertGoalsDistinct | src/lib/sync.js:110-113 | Upserts keep goal types unique. |
| SyncLaws.PullIdempotent | src/lib/sync.js:55-117 | Pulling the same result sets twice leaves the store as one pull does. |
| SyncLaws.PullNoDuplicates | src/lib/sync.js:73-114 | With unique keys locally and unique ids in the session, entry and marker result sets, pull leaves every key unique. |
| SyncLaws.PushedThenAdopted | src/lib/sync.js:14-106 | Records with unique keys that survive the row mapping, pushed into an empty table and listed back in any order, are adopted into an empty store as exactly those records. |
| SyncLaws.SessionsRoundTrip | src/lib/sync.js:14-18 | Sessions with notes pushed by one device are exactly what an empty device pulls back. |
| SyncLaws.EntriesRoundTrip | src/lib/sync.js:21-36 | Fully populated entries pushed by one device are exactly what an empty device pulls back. |
| SyncLaws.MarkersRoundTrip | src/lib/sync.js:39-43 | Markers pushed by one device are exactly what an empty device pulls back. |
| Wire.SessionToRow | src/lib/sync.js:15-17 | The row keeps the id and carries the user's id. |
| Wire.EntryToRow | src/lib/sync.js:22-35 | The row keeps the id and carries the user's id. `is_three` and `pressured` are always booleans; absent is false. |
| Wire.MarkerToRow | src/lib/sync.js:40-42 | The row keeps the id and carries the user's id. |
| Wire.GoalToRow | src/lib/sync.js:47-49 | The row is keyed by the goal type and carries the user's id. |
| Wire.SessionFromRow | src/lib/sync.js:76 | Keeps the id; null notes become the empty string. |
| Wire.EntryFromRow | src/lib/sync.js:84-96 | Keeps the id. A null subtype becomes `'none'`. The two flags become booleans, false when falsy. The marker link is kept. |
| Wire.MarkerFromRow | src/lib/sync.js:104 | Keeps the id. |
| Wire.GoalFromRow | src/lib/sync.js:112 | Keeps the goal type. |
| Wire.SessionRoundTrip | src/lib/sync.js:16 | A session survives push then pull exactly when its notes are present. |
| Wire.EntryRoundTrip | src/lib/sync.js:22-35 | An entry survives push then pull exactly when `isThree`, `subtype` and `pressured` are present. |
| Wire.MarkerRoundTrip | src/lib/sync.js:41 | A marker survives push then pull. |
| Wire.GoalRoundTrip | src/lib/sync.js:48 | A goal survives push then pull. |
| Wire.SessionRowRoundTrip | src/lib/sync.js:76 | A session row survives pull then push exactly when its notes are not null. |
| Wire.EntryRowRoundTrip | src/lib/sync.js:84-96 | An entry row survives pull then push exactly when `is_three`, `subtype` and `pressured` are not null. |
| Keyed.AdoptIncludes | src/lib/sync.js:82-98 | Every row with a new key is adopted. |
| Keyed.AdoptOrigin | src/lib/sync.js:82-98 | Every adopted record comes from a row with a new key. |
| Keyed.AdoptKeys | src/lib/sync.js:82-98 | The adopted keys are the row keys minus the local keys. |
| Keyed.AdoptNothingNew | src/lib/sync.js:82-98 | When every row key is already local, nothing is adopted; this makes a second pull add nothing. |
| Keyed.AdoptDistinct | src/lib/sync.js:82-98 | With unique row keys, the adopted records have unique keys. |
| Keyed.UpsertAllKeys | src/lib/sync.js:14-50 | After the upserts, the keys are the old keys plus the upserted keys. |
| Keyed.UpsertAllOverride | src/lib/sync.js:14-50 | Upserting rows into a table is the old table overridden by the table those rows alone make. |
| Keyed.UpsertAllIdempotent | src/lib/sync.js:14-50 | Upserting the same rows twice is upserting them once. |
| Keyed.UpsertAllRetry | src/lib/sync.js:14-50 | Upserting some of the rows first changes nothing about upserting all of them afterwards. |
| Keyed.UpsertAllOrigin | src/lib/sync.js:14-50 | Every value afterwards is an upserted row or the old value under its key. |
| Keyed.UpsertAllValues | src/lib/sync.js:14-50 | With unique keys, each upserted row is what its key maps to afterwards, and keys not upserted keep their old value. |
| Db.UpsertGoalEffect | src/lib/sync.js:112 | After an upsert the goal is stored. The types are the old types plus its type, and goals of other types stay. |
| Db.UpsertGoalDistinct | src/lib/sync.js:112 | An upsert keeps goal types unique. |
| Db.LocalStore.GetSessions | src/lib/db.js:8-10 | Returns the stored sessions, or empty when nothing was stored. |
| Db.LocalStore.GetEntries | src/lib/db.js:12-14 | Returns the stored entries, or empty when nothing was stored. |
| Db.LocalStore.AddSession | src/lib/db.js:16-18 | Sessions become `[s] + old`; the other keys are unchanged. |
| Db.LocalStore.AddEntries | src/lib/db.js:20-22 | Entries become `batch + old`, with no dedupe; the other keys are unchanged. |
| Db.LocalStore.ClearAll | src/lib/db.js:24-27 | Sessions and entries become empty; markers and goals are unchanged. |
| Remote.RemoteStore.UpsertSession | src/lib/sync.js:15 | The sessions map gains or replaces the row under its id; nothing else changes. |
| Remote.RemoteStore.UpsertGoal | src/lib/sync.js:47 | The goals map gains or replaces the row under its type; nothing else changes. |
| Constants.ZoneTableShape | src/constants.js:1-18 | There are 14 zones and their ids are unique. |
| Constants.ThreesAreThePerimeter | src/constants.js:2-17 | A zone is a three exactly when it is one of the five perimeter zones. |
| Constants.ZoneLookup | src/constants.js:1-18 | Looking up a zone's id finds that zone. The free throw zone is found, and is not a three. |
| Constants.PerimeterZonesFound | src/constants.js:2-6 | Every perimeter id is found in the table as a three, and none is `free_throw`. |
| Constants.FindZoneInUnique | src/constants.js:1-18 | In a table with unique ids, looking up a zone's id returns that zone. |
| Constants.ChoiceTables | src/constants.js:20-32 | The shot types are `catch_shoot`, `off_dribble` and `free_throw`. `'none'` is the first subtype. |
| Tally.SumThrees | src/YTDSummary.jsx:55-62 | `threesMade` of a tally is the makes of its three-point entries alone. |
| Tally.SumAppend | src/YTDSummary.jsx:55-62 | The tally of two runs of entries is the sum of their tallies. |
| Tally.EntriesOf | src/YTDSummary.jsx:52 | Keeps exactly the entries whose session id is in the set; an entry with no session is never kept. |
| Tally.SeedInto | src/CourtHeatmap.jsx:69 | The seeding loop gives the seed buckets: one per table entry, in table order. |
| Tally.SeedShape | src/Heatmap.jsx:35 | The seeded buckets are well formed, and their keys are the keys of the table. |
| Tally.SeedValue | src/CourtHeatmap.jsx:69 | With unique keys, each table entry's bucket holds that entry's seed value. |
| Tally.GroupInto | src/YTDSummary.jsx:65-73 | The `forEach` loop that fills the map gives the grouping function. |
| Tally.GroupShape | src/YTDSummary.jsx:65-73 | Grouping keeps the buckets well formed. The keys become the old keys plus the keys the entries name, and the old order is a prefix. |
| Tally.GroupValue | src/CourtHeatmap.jsx:70-76 | A bucket is its seed value, or the opening value for a new key, with exactly the matching entries folded in. |
| Tally.GroupEmptyBucket | src/YTDSummary.jsx:65-73 | A key without a bucket was not seeded and is named by no entry. |
| Tally.GroupTotal | src/YTDSummary.jsx:65-73 | Each entry adds to exactly one bucket, so the buckets sum to the seed total plus the tally of all the entries. |
| Tally.ZeroSeedTotal | src/Heatmap.jsx:35 | Buckets that all hold zero sum to zero. |
| BatchWizard.ActiveZoneIsThreeMeans | src/BatchWizard.jsx:73-77 | The chosen zone counts as a three exactly when it is a perimeter zone. The free throw and unknown zones do not count. |
| BatchWizard.FirstSessionOn | src/BatchWizard.jsx:44 | Finds a session of the day when there is one, and none otherwise. |
| BatchWizard.FirstSessionOnIsFirst | src/BatchWizard.jsx:44 | No earlier session is of that day. |
| BatchWizard.TodaysEntriesMembers | src/BatchWizard.jsx:56-62 | An entry is one of today's exactly when it is stored and belongs to a session dated today. An entry with no session never is. |
| BatchWizard.TotalsToday | src/BatchWizard.jsx:64-71 | `threesMade` is the makes of today's three-point entries. |
| BatchWizard.NewEntryShape | src/BatchWizard.jsx:114-125 | A saved batch is a three exactly when it is not a free throw and its zone is a perimeter zone. It keeps its subtype only for an off-dribble shot, else `'none'`. It has no marker, and it survives push and pull. |
| BatchWizard.NewSession | src/BatchWizard.jsx:81-85 | A new session keeps the given id and date and has empty notes, so it survives a push and a pull for any user. |
| BatchWizard.Wizard.constructor | src/BatchWizard.jsx:21-32 | Empty lists, no active session; the form starts at corner left, catch and shoot, no subtype, not pressured, 10 attempts, 4 makes. |
| BatchWizard.Wizard.Load | src/BatchWizard.jsx:36-48 | Loads the three lists. Picks the first session of today when there is one, else keeps the selection. |
| BatchWizard.Wizard.CreateNewSession | src/BatchWizard.jsx:80-89 | Stores the new session first, shows it first, and makes it active. |
| BatchWizard.Wizard.SwitchSession | src/BatchWizard.jsx:91 | A missing or empty id deselects; any other id becomes active. |
| BatchWizard.Wizard.EndSession | src/BatchWizard.jsx:92 | Deselects the session; nothing else changes. |
| BatchWizard.Wizard.EnsureSession | src/BatchWizard.jsx:95-99 | Returns the active id held before the call. When none was active it creates and activates a new session, yet still returns the old missing id. |
| BatchWizard.Wizard.OnMarkSet | src/BatchWizard.jsx:102-107 | Prepends one "Set" marker, in the store and on screen. Its session is the one `EnsureSession` returns. When no session was active, a new session is stored, shown first and made active; otherwise the sessions are unchanged. Entries, goals and the form are unchanged. |
| BatchWizard.Wizard.OnPlusAttempts | src/BatchWizard.jsx:108 | Attempts go up by 10. The rest of the form, the sessions, entries, markers and active session are unchanged. |
| BatchWizard.Wizard.OnPlusMake | src/BatchWizard.jsx:109 | Makes go up by 1. The rest of the form, the sessions, entries, markers and active session are unchanged. |
| BatchWizard.Wizard.AddBatch | src/BatchWizard.jsx:112-129 | Prepends exactly one entry built from the form, in the store and on screen. When no session was active, a new session is stored, shown first and made active; otherwise the sessions are unchanged. With reset the counters become 10 and 0; without it they are unchanged. Zone, shot type, subtype, pressure, markers and goals are unchanged. |
| DateRange.After | src/CourtHeatmap.jsx:63 | Keeps exactly the entries logged after the start. |
| DateRange.FilteredMeans | src/CourtHeatmap.jsx:59-64 | With "all", every entry is kept in order. With a number of days, an entry is kept exactly when logged after the start. When all entries are after the start, nothing is dropped. |
| YtdSummary.YtdEntriesMembers | src/YTDSummary.jsx:47-53 | An entry is a year-to-date entry exactly when it belongs to a session dated on or after the start of the year. |
| YtdSummary.ByKeyMeans | src/YTDSummary.jsx:65-73 | There is one bucket per zone (or shot type) that the entries name. Each bucket is the tally of exactly its entries, and the buckets sum to `totals`. |
| YtdSummary.RowOf | src/YTDSummary.jsx:76-82 | A row shows `'—'` for fg and efg exactly when it has no attempts, else the two percentages. |
| YtdSummary.CaptionFallback | src/YTDSummary.jsx:75-77 | The caption is the table's caption for a known id, and the raw id otherwise. |
| YtdSummary.Insert | src/YTDSummary.jsx:83 | Inserting into rows sorted by attempts, descending, keeps them sorted and adds exactly that row. |
| YtdSummary.SortByAttempts | src/YTDSummary.jsx:83 | Sorts by attempts, descending; the result is a permutation of the rows. |
| YtdSummary.AttemptsSorted | src/YTDSummary.jsx:83 | Sorting keeps the attempt total. |
| YtdSummary.ZoneRows | src/YTDSummary.jsx:74-83 | The zone rows are sorted by attempts, descending, and their attempts sum to the year's attempts. |
| YtdSummary.TypeRows | src/YTDSummary.jsx:95-104 | The shot-type rows are sorted by attempts, descending, and their attempts sum to the year's attempts. |
| YtdSummary.TableMeans | src/YTDSummary.jsx:65-83 | The table is sorted and has one row per key. Each key's row has its caption and the tally of exactly that key's entries, and every row is such a row. The attempts add up to `totals.attempts`. |
| YtdSummary.DashMeansNoAttempts | src/YTDSummary.jsx:80-81 | In a finished table, fg and efg show `'—'` exactly on the rows with no attempts. |
| CourtHeatmap.CourtTableShape | src/CourtHeatmap.jsx:15-37 | The court table has 14 zones with unique ids. |
| CourtHeatmap.CourtZonesAgree | src/CourtHeatmap.jsx:15-37 | Position by position, the court table's ids and flags equal those of a distinct zone of the shared table. |
| CourtHeatmap.CourtZonesMatchTable | src/CourtHeatmap.jsx:15-37 | The two tables hold the same ids with the same three-point flags, in both directions. |
| CourtHeatmap.ColorForPctBands | src/CourtHeatmap.jsx:40-49 | No percentage is grey; otherwise the colour is the band given by how many of 35/40/45/50 the percentage has reached. |
| CourtHeatmap.ColorForPctMonotone | src/CourtHeatmap.jsx:40-49 | A higher percentage never falls in a lower band. |
| CourtHeatmap.StatOf | src/CourtHeatmap.jsx:78-82 | The percentages are null exactly when a bucket has no attempts, else fg and efg times 100. |
| CourtHeatmap.AddPercentages | src/CourtHeatmap.jsx:78-82 | The last loop adds the percentages to every bucket, keeping the keys. |
| CourtHeatmap.ByZone | src/CourtHeatmap.jsx:67-84 | The three loops compute the `byZone` specification. |
| CourtHeatmap.ByZoneSeeded | src/CourtHeatmap.jsx:69 | Every table zone has a bucket with that zone's flag, holding the tally of exactly its entries. |
| CourtHeatmap.ByZoneUnknown | src/CourtHeatmap.jsx:70-76 | The buckets are the table zones plus the zones the entries name. An unknown zone's bucket is not a three and holds the tally of its entries. |
| CourtHeatmap.ByZoneTotal | src/CourtHeatmap.jsx:70-76 | The buckets sum to the tally of all the entries. |
| CourtHeatmap.GroupCells | src/CourtHeatmap.jsx:70-76 | Grouping into flagged buckets and then dropping the flags is plain grouping. |
| Heatmap.GridZonesKnown | src/Heatmap.jsx:7-11 | Every grid cell names a zone of the shared table. |
| Heatmap.FillZones | src/Heatmap.jsx:34-42 | The two loops compute the zone tallies. |
| Heatmap.ZoneTalliesMeans | src/Heatmap.jsx:34-42 | The buckets are the table zones plus the zones the entries name. Each holds the tally of exactly its entries; a zone nobody shot from holds zero. |
| Heatmap.ZoneTalliesTotal | src/Heatmap.jsx:36-42 | The buckets sum to the tally of all the entries. |
| Heatmap.MaxAttempts | src/Heatmap.jsx:44 | At least 1 and at least every value's attempts; equal to 1 or to some value's attempts. |
| Heatmap.MaxAttBounds | src/Heatmap.jsx:44 | `maxAtt` is at least 1 and at least every bucket's attempts; it is 1 or some bucket's attempts. |
| Heatmap.CellStatMeans | src/Heatmap.jsx:46-55 | In the accuracy and eFG views, a cell shows `'—'` exactly when the zone has no attempts, and then its ratio is 0. In the density view the ratio is at most 1, and at least 0 for non-negative attempts. |
| Heatmap.Clamp01 | src/Heatmap.jsx:14 | The value is clamped into [0, 1] and kept when already inside. |
| Heatmap.StatColor | src/Heatmap.jsx:13-18 | The red channel is 20, and green and blue are in [0, 200]. Ratios at or below 0 are pure blue; ratios at or above 1 are pure green. |
| Heatmap.StatColorMonotone | src/Heatmap.jsx:13-18 | A larger ratio is never less green nor more blue. |
| HexShade.Digit | src/App.jsx:118-120 | A written digit reads back as its value. |
| HexShade.Pair | src/App.jsx:118-120 | A channel value is written as exactly two lowercase digits, high digit first. |
| HexShade.ShadeShape | src/App.jsx:108-122 | For percent at least -100, the result is a lowercase `#rrggbb` colour. Its channels read back as the input channels scaled, truncated and capped at 255. |
| HexShade.ShadeZero | src/App.jsx:108-122 | Shading by 0 percent gives the input in lowercase. |
| HexShade.ShadeDarkens | src/App.jsx:112-117 | Between -100 and 0 percent, no channel gets lighter. |
| HexShade.ScaleRange | src/App.jsx:112-117 | Scaling by at least -100 percent keeps a channel in 0..255. |

## Left out

- The hosted database client, sign-in and the account screen. The current user is an optional parameter of push and pull.
- The server's row-ownership policy and real upsert semantics. The remote tables are in-memory maps.
- The four parallel reads of both sync operations are modelled as sequential reads; they are independent.
- Remote errors: push always reports ok with a user, and a failed select counts as an empty list, as in the code. No other failure is modelled.
- The remote result sets are parameters of `Sync.PullAllRemote`. Their `created_at` ordering is whatever order the parameter has.
- IndexedDB itself: the store is a class with one optional sequence per key. Writes are not atomic across keys, which the model does not capture.
- Db.LocalStore.AddMarker, Db.LocalStore.UpsertGoal, Db.LocalStore.GetMarkers and Db.LocalStore.GetGoals: `src/lib/db.js` does not define them although other files import them. They are assumed: markers are prepended like sessions, and a goal replaces every stored goal of its type, or is prepended when its type is new.
- Dates and clocks: `Date.now()`, today's date, the start of the year (and the session-date parsing against it) and the start of a range window are parameters. Fresh ids are parameters too.
- Floating point: percentages, eFG% and colour ratios are exact reals. `efg` is an uninterpreted function parameter; its module is not part of this model. `toFixed`, the text of labels and the `rgb(...)` string are not modelled, only the values they show.
- The `Number(...)` coercions in `src/BatchWizard.jsx` and `src/lib/sync.js`: counters and targets are integers already.
- YtdSummary.SortByAttempts: the source's stable sort is modelled as one stable sort. Proved: sorted by attempts, and a permutation. Not proved: rows with equal attempts keep their map order.
- HexShade.Shade: requires a six-digit `#rrggbb` colour (the buttons pass only such colours). For other strings, `parseInt` reads whatever hex prefix each two-character slice has. A slice with no hex digit gives `NaN`, and `NaN < 255` is false, so that channel becomes `ff` (for example `shade('#abc', -10)` gives `#990aff`). This behaviour is not modelled. A non-integer percent and the exponent form of huge numbers are not modelled either.
- React rendering, hooks, styles, SVG shapes, the selected-session lookup used only for display, the toast timer and vibration.
- The diagnostic, presentational and build files: `src/LiveLiteBar.jsx`, `src/PWAUpdateBanner.jsx`, `src/StorageSmokeTest.tsx`, `vite.config.js`.
- `src/Goals.jsx` and `src/Progression.jsx`: their goal saving is the modelled goal upsert; the rest is float progress, date bucketing and charting.
