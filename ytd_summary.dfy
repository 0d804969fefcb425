/**
 * The year-to-date screen of src/YTDSummary.jsx: the entries of this year's
 * sessions, their totals, and the "By Zone" and "By Shot Type" tables, each
 * a group-by into a `Map` turned into rows and sorted by attempts, most
 * first.
 *
 * Session dates are read by a date library; here `dateOf` maps a session's
 * date string to a day number and `startOfYear` is the day number of the
 * first of January. The eFG% formula lives in a module that is not part of
 * this model, so `efg` is a parameter.
 */
module YtdSummary {
  import opened Optional
  import opened Records
  import opened Constants
  import opened Keyed
  import opened Tally

  // ---------------------------------------------------------------------------
  // The entries of the year

  /** `sessionIdsThisYear`: the sessions dated on or after the start of the year. */
  function YearSessionIds(sessions: seq<Session>, dateOf: string -> int, startOfYear: int): set<string> {
    set s | s in sessions && dateOf(s.dateISO) >= startOfYear :: s.id
  }

  /** `ytdEntries`: the entries of those sessions, in stored order. */
  function YtdEntries(sessions: seq<Session>, entries: seq<Entry>, dateOf: string -> int, startOfYear: int): seq<Entry> {
    EntriesOf(entries, YearSessionIds(sessions, dateOf, startOfYear))
  }

  /**
   * An entry counts for the year exactly when one of the sessions dated on
   * or after the start of the year is its session.
   */
  lemma YtdEntriesMembers(sessions: seq<Session>, entries: seq<Entry>, dateOf: string -> int, startOfYear: int, e: Entry)
    ensures e in YtdEntries(sessions, entries, dateOf, startOfYear) <==>
      e in entries && exists s :: s in sessions && dateOf(s.dateISO) >= startOfYear && e.sessionId == Some(s.id)
  {
    if e in YtdEntries(sessions, entries, dateOf, startOfYear) {
      var s :| s in sessions && dateOf(s.dateISO) >= startOfYear && s.id == e.sessionId.value;
    }
    if e in entries && exists s :: s in sessions && dateOf(s.dateISO) >= startOfYear && e.sessionId == Some(s.id) {
      var s :| s in sessions && dateOf(s.dateISO) >= startOfYear && e.sessionId == Some(s.id);
      assert s.id in YearSessionIds(sessions, dateOf, startOfYear);
    }
  }

  // ---------------------------------------------------------------------------
  // Buckets

  function TypeOf(e: Entry): string { e.shotType }

  /** `new Map()`. */
  const EMPTY: Buckets<Totals> := Buckets([], map[])

  /** `zoneMap` / `typeMap`: the reducer run per key, each bucket opened at zero. */
  function ByKey(ytd: seq<Entry>, keyOf: Entry -> string): Buckets<Totals> {
    Group(EMPTY, ytd, keyOf, ZERO, Add)
  }

  /**
   * The buckets are exactly the keys that occur, each holds the tally of
   * the entries with its key, and the buckets add up to the year's totals:
   * every entry lands in exactly one bucket.
   */
  lemma ByKeyMeans(ytd: seq<Entry>, keyOf: Entry -> string)
    ensures Valid(ByKey(ytd, keyOf))
    ensures ByKey(ytd, keyOf).tally.Keys == Keys(ytd, keyOf)
    ensures forall k :: k in ByKey(ytd, keyOf).tally ==> ByKey(ytd, keyOf).tally[k] == Sum(Matching(ytd, keyOf, k))
    ensures TotalOver(ByKey(ytd, keyOf).order, ByKey(ytd, keyOf).tally) == Sum(ytd)
  {
    assert Valid(EMPTY);
    GroupShape(EMPTY, ytd, keyOf, ZERO, Add);
    ByKeyTotal(ytd, keyOf);
    forall k | k in ByKey(ytd, keyOf).tally ensures ByKey(ytd, keyOf).tally[k] == Sum(Matching(ytd, keyOf, k)) {
      ByKeyValue(ytd, keyOf, k);
    }
  }

  lemma ByKeyTotal(ytd: seq<Entry>, keyOf: Entry -> string)
    ensures TotalOver(ByKey(ytd, keyOf).order, ByKey(ytd, keyOf).tally) == Sum(ytd)
  {
    assert Valid(EMPTY);
    GroupTotal(EMPTY, ytd, keyOf);
    ZeroPlus(Sum(ytd));
  }

  lemma ByKeyValue(ytd: seq<Entry>, keyOf: Entry -> string, k: string)
    requires k in ByKey(ytd, keyOf).tally
    ensures ByKey(ytd, keyOf).tally[k] == Sum(Matching(ytd, keyOf, k))
  {
    GroupValue(EMPTY, ytd, keyOf, ZERO, Add, k);
    FoldAdd(ZERO, Matching(ytd, keyOf, k));
    ZeroPlus(Sum(Matching(ytd, keyOf, k)));
  }

  // ---------------------------------------------------------------------------
  // Rows

  /** A percentage cell: `'—'` or a number of percent (its one-decimal rendering is not modelled). */
  datatype Pct = Dash | Percent(value: real)

  datatype Row = Row(caption: string, attempts: int, makes: int, fg: Pct, efg: Pct)

  /** One table row; both percentages are `'—'` when there were no attempts. */
  function RowOf(caption: string, t: Totals, efg: Totals -> real): (r: Row)
    ensures r.caption == caption && r.attempts == t.attempts && r.makes == t.makes
    ensures r.fg == Dash <==> t.attempts == 0
    ensures r.efg == Dash <==> t.attempts == 0
    ensures t.attempts != 0 ==> r.fg == Percent(t.makes as real / t.attempts as real * 100.0)
    ensures t.attempts != 0 ==> r.efg == Percent(efg(t) * 100.0)
  {
    Row(caption, t.attempts, t.makes,
        if t.attempts == 0 then Dash else Percent(t.makes as real / t.attempts as real * 100.0),
        if t.attempts == 0 then Dash else Percent(efg(t) * 100.0))
  }

  /** `z?.label || zoneId`: the zone's caption, or the raw id for an unknown zone or an empty caption. */
  function ZoneCaption(id: string): string {
    match FindZone(id)
    case Some(z) => if z.caption != "" then z.caption else id
    case None => id
  }

  /** `SHOT_TYPES.find(...)?.label || st`. */
  function TypeCaption(id: string): string {
    match FindChoiceIn(SHOT_TYPES, id)
    case Some(c) => if c.caption != "" then c.caption else id
    case None => id
  }

  /** A caption is the raw id unless a table entry with that id supplies it. */
  lemma CaptionFallback(id: string)
    ensures FindZone(id).None? ==> ZoneCaption(id) == id
    ensures ZoneCaption(id) == id || exists z :: z in ZONES && z.id == id && z.caption == ZoneCaption(id)
    ensures FindChoiceIn(SHOT_TYPES, id).None? ==> TypeCaption(id) == id
    ensures TypeCaption(id) == id || exists c :: c in SHOT_TYPES && c.id == id && c.caption == TypeCaption(id)
  {
  }

  /** `Array.from(map.entries()).map(...)`: one row per bucket, in the map's order. */
  function RowsOf(order: seq<string>, tally: map<string, Totals>, captionOf: string -> string, efg: Totals -> real): (rows: seq<Row>)
    ensures |rows| == |order|
    ensures forall i :: 0 <= i < |order| ==> rows[i] == RowOf(captionOf(order[i]), TallyOf(tally, order[i]), efg)
  {
    if order == [] then []
    else RowsOf(order[..|order| - 1], tally, captionOf, efg) + [RowOf(captionOf(order[|order| - 1]), TallyOf(tally, order[|order| - 1]), efg)]
  }

  // ---------------------------------------------------------------------------
  // Sorting by attempts

  /** Attempts never increase down the table. */
  predicate Descending(rows: seq<Row>) {
    forall i, j :: 0 <= i < j < |rows| ==> rows[i].attempts >= rows[j].attempts
  }

  /** Place `x` before the first row with no more attempts than it, so that it stays ahead of its equals. */
  function Insert(x: Row, rows: seq<Row>): (r: seq<Row>)
    requires Descending(rows)
    ensures Descending(r)
    ensures multiset(r) == multiset(rows) + multiset{x}
    ensures |r| == |rows| + 1
  {
    if rows == [] || x.attempts >= rows[0].attempts then [x] + rows
    else
      var tail := Insert(x, rows[1..]);
      InsertBelow(x, rows, tail);
      [rows[0]] + tail
  }

  /** Putting the head back in front of a sorted tail that holds only smaller rows keeps the order. */
  lemma InsertBelow(x: Row, rows: seq<Row>, tail: seq<Row>)
    requires rows != [] && x.attempts < rows[0].attempts && Descending(rows)
    requires Descending(tail) && multiset(tail) == multiset(rows[1..]) + multiset{x}
    ensures Descending([rows[0]] + tail)
    ensures multiset([rows[0]] + tail) == multiset(rows) + multiset{x}
  {
    assert rows == [rows[0]] + rows[1..];
    forall j | 0 <= j < |tail| ensures rows[0].attempts >= tail[j].attempts {
      assert tail[j] in multiset(tail);
      if tail[j] != x {
        assert tail[j] in multiset(rows[1..]);
        assert tail[j] in rows[1..];
      }
    }
  }

  /**
   * `.sort((a, b) => b.attempts - a.attempts)`: JavaScript's sort is stable,
   * so rows of equal attempts keep their map order; insertion from the back
   * gives the same result.
   */
  function SortByAttempts(rows: seq<Row>): (r: seq<Row>)
    ensures Descending(r)
    ensures multiset(r) == multiset(rows)
  {
    if rows == [] then [] else
      assert rows == [rows[0]] + rows[1..];
      Insert(rows[0], SortByAttempts(rows[1..]))
  }

  /** The Att column total. */
  function AttemptsOf(rows: seq<Row>): int {
    if rows == [] then 0 else AttemptsOf(rows[..|rows| - 1]) + rows[|rows| - 1].attempts
  }

  lemma {:induction false} AttemptsAppend(a: seq<Row>, b: seq<Row>)
    ensures AttemptsOf(a + b) == AttemptsOf(a) + AttemptsOf(b)
  {
    if b == [] {
      assert a + b == a;
    } else {
      AttemptsAppend(a, b[..|b| - 1]);
      assert (a + b)[..|a + b| - 1] == a + b[..|b| - 1];
    }
  }

  lemma {:induction false} AttemptsInsert(x: Row, rows: seq<Row>)
    requires Descending(rows)
    ensures AttemptsOf(Insert(x, rows)) == x.attempts + AttemptsOf(rows)
  {
    if rows == [] || x.attempts >= rows[0].attempts {
      AttemptsAppend([x], rows);
      assert AttemptsOf([x]) == AttemptsOf([]) + x.attempts;
    } else {
      AttemptsInsert(x, rows[1..]);
      AttemptsAppend([rows[0]], Insert(x, rows[1..]));
      AttemptsAppend([rows[0]], rows[1..]);
      assert AttemptsOf([rows[0]]) == AttemptsOf([]) + rows[0].attempts;
      assert rows == [rows[0]] + rows[1..];
    }
  }

  /** Sorting moves rows but keeps the Att column total. */
  lemma {:induction false} AttemptsSorted(rows: seq<Row>)
    ensures AttemptsOf(SortByAttempts(rows)) == AttemptsOf(rows)
  {
    if rows != [] {
      AttemptsSorted(rows[1..]);
      AttemptsInsert(rows[0], SortByAttempts(rows[1..]));
      AttemptsAppend([rows[0]], rows[1..]);
      assert AttemptsOf([rows[0]]) == AttemptsOf([]) + rows[0].attempts;
      assert rows == [rows[0]] + rows[1..];
    }
  }

  lemma {:induction false} AttemptsOfRows(order: seq<string>, tally: map<string, Totals>, captionOf: string -> string, efg: Totals -> real)
    ensures AttemptsOf(RowsOf(order, tally, captionOf, efg)) == TotalOver(order, tally).attempts
  {
    if order != [] {
      AttemptsOfRows(order[..|order| - 1], tally, captionOf, efg);
    }
  }

  // ---------------------------------------------------------------------------
  // The two tables

  /** `zoneRows`: sorted by attempts, and its Att column adds up to the year's attempts. */
  function ZoneRows(ytd: seq<Entry>, efg: Totals -> real): (rows: seq<Row>)
    ensures Descending(rows)
    ensures AttemptsOf(rows) == Sum(ytd).attempts
  {
    TableMeans(ytd, ZoneOf, ZoneCaption, efg);
    SortByAttempts(RowsOf(ByKey(ytd, ZoneOf).order, ByKey(ytd, ZoneOf).tally, ZoneCaption, efg))
  }

  /** `typeRows`: sorted by attempts, and its Att column adds up to the year's attempts. */
  function TypeRows(ytd: seq<Entry>, efg: Totals -> real): (rows: seq<Row>)
    ensures Descending(rows)
    ensures AttemptsOf(rows) == Sum(ytd).attempts
  {
    TableMeans(ytd, TypeOf, TypeCaption, efg);
    SortByAttempts(RowsOf(ByKey(ytd, TypeOf).order, ByKey(ytd, TypeOf).tally, TypeCaption, efg))
  }

  /**
   * A grouped table is sorted by attempts, most first; it has exactly one
   * row per key that occurs, carrying that key's caption and the tally of
   * its entries; and its Att column adds up to the attempts of all the
   * entries.
   */
  lemma TableMeans(ytd: seq<Entry>, keyOf: Entry -> string, captionOf: string -> string, efg: Totals -> real)
    ensures var rows := SortByAttempts(RowsOf(ByKey(ytd, keyOf).order, ByKey(ytd, keyOf).tally, captionOf, efg));
      && Descending(rows)
      && |rows| == |ByKey(ytd, keyOf).order|
      && (forall k :: k in Keys(ytd, keyOf) ==> RowOf(captionOf(k), Sum(Matching(ytd, keyOf, k)), efg) in rows)
      && (forall r :: r in rows ==> exists k :: k in Keys(ytd, keyOf) && r == RowOf(captionOf(k), Sum(Matching(ytd, keyOf, k)), efg))
      && AttemptsOf(rows) == Sum(ytd).attempts
  {
    var g := ByKey(ytd, keyOf);
    var unsorted := RowsOf(g.order, g.tally, captionOf, efg);
    var rows := SortByAttempts(unsorted);
    SameMembers(unsorted, rows);
    UnsortedRowsMeans(ytd, keyOf, captionOf, efg);
    AttemptsSorted(unsorted);
    AttemptsOfRows(g.order, g.tally, captionOf, efg);
    ByKeyTotal(ytd, keyOf);
  }

  /** Reordering keeps the length and the members. */
  lemma SameMembers(a: seq<Row>, b: seq<Row>)
    requires multiset(a) == multiset(b)
    ensures |a| == |b|
    ensures forall r :: r in a <==> r in b
  {
    assert |multiset(a)| == |multiset(b)|;
    forall r ensures r in a <==> r in b {
      assert r in a <==> r in multiset(a);
      assert r in b <==> r in multiset(b);
    }
  }

  /** Before sorting: one row per key that occurs, with its caption and tally. */
  lemma UnsortedRowsMeans(ytd: seq<Entry>, keyOf: Entry -> string, captionOf: string -> string, efg: Totals -> real)
    ensures var rows := RowsOf(ByKey(ytd, keyOf).order, ByKey(ytd, keyOf).tally, captionOf, efg);
      && (forall k :: k in Keys(ytd, keyOf) ==> RowOf(captionOf(k), Sum(Matching(ytd, keyOf, k)), efg) in rows)
      && (forall r :: r in rows ==> exists k :: k in Keys(ytd, keyOf) && r == RowOf(captionOf(k), Sum(Matching(ytd, keyOf, k)), efg))
  {
    var rows := RowsOf(ByKey(ytd, keyOf).order, ByKey(ytd, keyOf).tally, captionOf, efg);
    forall k | k in Keys(ytd, keyOf) ensures RowOf(captionOf(k), Sum(Matching(ytd, keyOf, k)), efg) in rows {
      RowForKey(ytd, keyOf, captionOf, efg, k);
    }
    forall r | r in rows ensures exists k :: k in Keys(ytd, keyOf) && r == RowOf(captionOf(k), Sum(Matching(ytd, keyOf, k)), efg) {
      var i :| 0 <= i < |rows| && rows[i] == r;
      KeyForRow(ytd, keyOf, captionOf, efg, i);
    }
  }

  lemma RowForKey(ytd: seq<Entry>, keyOf: Entry -> string, captionOf: string -> string, efg: Totals -> real, k: string)
    requires k in Keys(ytd, keyOf)
    ensures RowOf(captionOf(k), Sum(Matching(ytd, keyOf, k)), efg) in RowsOf(ByKey(ytd, keyOf).order, ByKey(ytd, keyOf).tally, captionOf, efg)
  {
    var g := ByKey(ytd, keyOf);
    var rows := RowsOf(g.order, g.tally, captionOf, efg);
    assert Valid(EMPTY);
    GroupShape(EMPTY, ytd, keyOf, ZERO, Add);
    ByKeyValue(ytd, keyOf, k);
    var i :| 0 <= i < |g.order| && g.order[i] == k;
    assert rows[i] in rows;
  }

  lemma KeyForRow(ytd: seq<Entry>, keyOf: Entry -> string, captionOf: string -> string, efg: Totals -> real, i: int)
    requires 0 <= i < |ByKey(ytd, keyOf).order|
    ensures var r := RowsOf(ByKey(ytd, keyOf).order, ByKey(ytd, keyOf).tally, captionOf, efg)[i];
      exists k :: k in Keys(ytd, keyOf) && r == RowOf(captionOf(k), Sum(Matching(ytd, keyOf, k)), efg)
  {
    var g := ByKey(ytd, keyOf);
    var k := g.order[i];
    assert Valid(EMPTY);
    GroupShape(EMPTY, ytd, keyOf, ZERO, Add);
    assert k in g.order;
    ByKeyValue(ytd, keyOf, k);
  }

  /** Each row shows `'—'` for both percentages exactly when its zone or shot type had no attempts. */
  lemma DashMeansNoAttempts(rows: seq<Row>, captionOf: string -> string, order: seq<string>, tally: map<string, Totals>, efg: Totals -> real)
    requires rows == SortByAttempts(RowsOf(order, tally, captionOf, efg))
    ensures forall r :: r in rows ==> (r.fg == Dash <==> r.attempts == 0) && (r.efg == Dash <==> r.attempts == 0)
  {
    var unsorted := RowsOf(order, tally, captionOf, efg);
    SameMembers(unsorted, rows);
    forall r | r in rows ensures (r.fg == Dash <==> r.attempts == 0) && (r.efg == Dash <==> r.attempts == 0) {
      var i :| 0 <= i < |unsorted| && unsorted[i] == r;
    }
  }
}
