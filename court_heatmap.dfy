/**
 * The shot chart of src/CourtHeatmap.jsx: its own zone table (court order
 * and shorter captions; the SVG shapes are not modelled), the colour scale
 * for a percentage, and `byZone`, the per-zone tallies with their FG% and
 * eFG%. The eFG% formula lives in a module that is not part of this model,
 * so `efg` is a parameter.
 */
module CourtHeatmap {
  import opened Optional
  import opened Records
  import opened Constants
  import opened Keyed
  import opened Tally

  // ---------------------------------------------------------------------------
  // The zone table

  const COURT_ZONES: seq<Zone> := [
    Zone("corner_left", "Corner L", true),
    Zone("wing_left", "Wing L", true),
    Zone("top", "Top", true),
    Zone("wing_right", "Wing R", true),
    Zone("corner_right", "Corner R", true),
    Zone("mid_left", "Mid L", false),
    Zone("elbow_left", "Elbow L", false),
    Zone("mid_right", "Mid R", false),
    Zone("elbow_right", "Elbow R", false),
    Zone("short_left", "Short L", false),
    Zone("short_right", "Short R", false),
    Zone("paint", "Paint", false),
    Zone("paint_restricted", "Restricted", false),
    Zone("free_throw", "FT", false)
  ]

  /** For each court zone, the position of the zone with the same id in the shared table. */
  const TABLE_POSITION: seq<int> := [0, 1, 2, 3, 4, 7, 5, 8, 6, 9, 10, 12, 11, 13]

  /** There are 14 court zones and their ids are unique. */
  lemma CourtTableShape()
    ensures |COURT_ZONES| == 14
    ensures UniqueZoneIds(COURT_ZONES)
    ensures DistinctKeys(COURT_ZONES, ZoneKey)
  {
    // Length and first letter already tell the fourteen ids apart.
    assert forall i, j :: 0 <= i < j < 14 ==>
      |COURT_ZONES[i].id| != |COURT_ZONES[j].id| || COURT_ZONES[i].id[0] != COURT_ZONES[j].id[0];
  }

  /**
   * The court table is the shared table reordered: position `i` here and
   * position `TABLE_POSITION[i]` there hold the same id and the same
   * three-point flag, and every position there is used once.
   */
  lemma CourtZonesAgree()
    ensures |TABLE_POSITION| == |COURT_ZONES| == |ZONES|
    ensures forall i :: 0 <= i < |COURT_ZONES| ==>
      0 <= TABLE_POSITION[i] < |ZONES|
      && COURT_ZONES[i].id == ZONES[TABLE_POSITION[i]].id
      && COURT_ZONES[i].isThree == ZONES[TABLE_POSITION[i]].isThree
    ensures forall i, j :: 0 <= i < j < |TABLE_POSITION| ==> TABLE_POSITION[i] != TABLE_POSITION[j]
  {
  }

  /** Every court zone is a zone of the shared table with the same flag, and every shared zone is on the court. */
  lemma CourtZonesMatchTable()
    ensures forall z :: z in COURT_ZONES ==> exists c :: c in ZONES && c.id == z.id && c.isThree == z.isThree
    ensures forall c :: c in ZONES ==> exists z :: z in COURT_ZONES && z.id == c.id && z.isThree == c.isThree
  {
    forall z | z in COURT_ZONES ensures exists c :: c in ZONES && c.id == z.id && c.isThree == z.isThree {
      var i :| 0 <= i < |COURT_ZONES| && COURT_ZONES[i] == z;
      CourtZoneInTable(i);
    }
    forall c | c in ZONES ensures exists z :: z in COURT_ZONES && z.id == c.id && z.isThree == c.isThree {
      var j :| 0 <= j < |ZONES| && ZONES[j] == c;
      TableZoneOnCourt(j);
    }
  }

  lemma CourtZoneInTable(i: int)
    requires 0 <= i < |COURT_ZONES|
    ensures exists c :: c in ZONES && c.id == COURT_ZONES[i].id && c.isThree == COURT_ZONES[i].isThree
  {
    CourtZonesAgree();
    assert ZONES[TABLE_POSITION[i]] in ZONES;
  }

  lemma TableZoneOnCourt(j: int)
    requires 0 <= j < |ZONES|
    ensures exists z :: z in COURT_ZONES && z.id == ZONES[j].id && z.isThree == ZONES[j].isThree
  {
    CourtZonesAgree();
    var i := PositionOf(j);
    assert COURT_ZONES[i] in COURT_ZONES;
  }

  /** The court position that maps to position `j` of the shared table. */
  function PositionOf(j: int): (i: int)
    requires 0 <= j < 14
    ensures 0 <= i < |TABLE_POSITION| && TABLE_POSITION[i] == j
  {
    if j < 5 then j
    else if j == 5 then 6 else if j == 6 then 8 else if j == 7 then 5 else if j == 8 then 7
    else if j == 11 then 12 else if j == 12 then 11 else j
  }

  // ---------------------------------------------------------------------------
  // The colour scale

  /** The band boundaries, in percent. */
  const THRESHOLDS: seq<real> := [35.0, 40.0, 45.0, 50.0]

  /** Red, amber, yellow, lime, green: one colour per band. */
  const BAND_COLORS: seq<string> := ["#ef4444", "#f59e0b", "#eab308", "#84cc16", "#22c55e"]

  /** The colour of a zone with no attempts. */
  const NO_DATA: string := "#d1d5db"

  /** `colorForPct`. */
  function ColorForPct(pct: Option<real>): string {
    match pct
    case None => NO_DATA
    case Some(p) =>
      if p < 35.0 then "#ef4444"
      else if p < 40.0 then "#f59e0b"
      else if p < 45.0 then "#eab308"
      else if p < 50.0 then "#84cc16"
      else "#22c55e"
  }

  /** How many of the boundaries `p` has reached. */
  function Reached(ts: seq<real>, p: real): (n: nat)
    ensures n <= |ts|
  {
    if ts == [] then 0 else Reached(ts[..|ts| - 1], p) + (if ts[|ts| - 1] <= p then 1 else 0)
  }

  /** Reaching boundaries is monotone: a higher percentage has reached at least as many. */
  lemma {:induction false} ReachedMonotone(ts: seq<real>, p: real, q: real)
    requires p <= q
    ensures Reached(ts, p) <= Reached(ts, q)
  {
    if ts != [] {
      ReachedMonotone(ts[..|ts| - 1], p, q);
    }
  }

  /**
   * No data is grey; otherwise the colour is the band of the number of
   * boundaries reached, so the scale is a step function that only moves
   * towards green as the percentage grows.
   */
  lemma ColorForPctBands(pct: Option<real>)
    ensures pct.None? ==> ColorForPct(pct) == NO_DATA
    ensures pct.Some? ==> ColorForPct(pct) == BAND_COLORS[Reached(THRESHOLDS, pct.value)]
  {
    if pct.Some? {
      var p := pct.value;
      var r1 := Reached([35.0], p);
      var r2 := Reached([35.0, 40.0], p);
      var r3 := Reached([35.0, 40.0, 45.0], p);
      assert r1 == if 35.0 <= p then 1 else 0 by { assert [35.0][..0] == []; }
      assert r2 == r1 + if 40.0 <= p then 1 else 0 by { assert [35.0, 40.0][..1] == [35.0]; }
      assert r3 == r2 + if 45.0 <= p then 1 else 0 by { assert [35.0, 40.0, 45.0][..2] == [35.0, 40.0]; }
      assert Reached(THRESHOLDS, p) == r3 + if 50.0 <= p then 1 else 0 by { assert THRESHOLDS[..3] == [35.0, 40.0, 45.0]; }
    }
  }

  /** A higher percentage never gets a colour further from green. */
  lemma ColorForPctMonotone(p: real, q: real)
    requires p <= q
    ensures exists i, j :: 0 <= i <= j < |BAND_COLORS| && ColorForPct(Some(p)) == BAND_COLORS[i] && ColorForPct(Some(q)) == BAND_COLORS[j]
  {
    ColorForPctBands(Some(p));
    ColorForPctBands(Some(q));
    ReachedMonotone(THRESHOLDS, p, q);
  }

  // ---------------------------------------------------------------------------
  // byZone

  /** A bucket while entries are added: the tally and the zone's three-point flag. */
  datatype Cell = Cell(t: Totals, isThree: bool)

  /** A finished bucket: the tally, the flag, and the two percentages (null without attempts). */
  datatype Stat = Stat(t: Totals, isThree: bool, fgPct: Option<real>, efgPct: Option<real>)

  /** The seed of a court zone: a zero tally with the zone's flag. */
  function ZoneCell(z: Zone): Cell { Cell(ZERO, z.isThree) }

  /** The bucket an unknown zone opens with. */
  const OPENING: Cell := Cell(ZERO, false)

  function CellAdd(c: Cell, e: Entry): Cell { Cell(Add(c.t, e), c.isThree) }

  /** The per-zone percentages, null when the zone has no attempts. */
  function StatOf(c: Cell, efg: Totals -> real): (s: Stat)
    ensures s.t == c.t && s.isThree == c.isThree
    ensures s.fgPct.None? <==> c.t.attempts == 0
    ensures s.efgPct.None? <==> c.t.attempts == 0
    ensures c.t.attempts != 0 ==> s.fgPct == Some(c.t.makes as real / c.t.attempts as real * 100.0)
    ensures c.t.attempts != 0 ==> s.efgPct == Some(efg(c.t) * 100.0)
  {
    Stat(c.t, c.isThree,
         if c.t.attempts == 0 then None else Some(c.t.makes as real / c.t.attempts as real * 100.0),
         if c.t.attempts == 0 then None else Some(efg(c.t) * 100.0))
  }

  /** Every bucket given its percentages, in place. */
  function Stats(g: Buckets<Cell>, efg: Totals -> real): Buckets<Stat> {
    Buckets(g.order, map k | k in g.tally :: StatOf(g.tally[k], efg))
  }

  /** The per-zone tallies before the percentages are added. */
  function ZoneCells(filtered: seq<Entry>): Buckets<Cell> {
    Group(Seed(COURT_ZONES, ZoneKey, ZoneCell), filtered, ZoneOf, OPENING, CellAdd)
  }

  /** `byZone`. */
  function ByZoneSpec(filtered: seq<Entry>, efg: Totals -> real): Buckets<Stat> {
    Stats(ZoneCells(filtered), efg)
  }

  /** The last loop of `byZone`: `map.set(id, { ...t, fgPct, efgPct })` for every bucket. */
  method AddPercentages(g: Buckets<Cell>, efg: Totals -> real) returns (s: Buckets<Stat>)
    requires Valid(g)
    ensures s == Stats(g, efg)
  {
    var out: map<string, Stat> := map[];
    for i := 0 to |g.order|
      invariant out == map k | k in g.order[..i] :: StatOf(g.tally[k], efg)
    {
      assert g.order[..i + 1] == g.order[..i] + [g.order[i]];
      out := out[g.order[i] := StatOf(g.tally[g.order[i]], efg)];
    }
    assert g.order[..|g.order|] == g.order;
    assert g.tally.Keys == set k | k in g.order;
    s := Buckets(g.order, out);
  }

  /** The three loops of `byZone`: seed the court zones, add every entry, then add the percentages. */
  method ByZone(filtered: seq<Entry>, efg: Totals -> real) returns (r: Buckets<Stat>)
    ensures r == ByZoneSpec(filtered, efg)
  {
    var seed := SeedInto(COURT_ZONES, ZoneKey, ZoneCell);
    var g := GroupInto(seed, filtered, ZoneOf, OPENING, CellAdd);
    SeedShape(COURT_ZONES, ZoneKey, ZoneCell);
    GroupShape(seed, filtered, ZoneOf, OPENING, CellAdd);
    r := AddPercentages(g, efg);
  }

  // ---------------------------------------------------------------------------
  // What byZone holds

  /** Adding entries to a cell adds their tally and keeps its flag. */
  lemma {:induction false} FoldCell(c: Cell, es: seq<Entry>)
    ensures Fold(c, es, CellAdd) == Cell(Plus(c.t, Sum(es)), c.isThree)
  {
    if es == [] {
      PlusZero(c.t);
    } else {
      FoldCell(c, es[..|es| - 1]);
    }
  }

  /** A bucket holds its seed (or the opening cell) with the tally of its zone's entries added. */
  lemma CellValue(filtered: seq<Entry>, k: string)
    requires k in ZoneCells(filtered).tally
    ensures var seed := Seed(COURT_ZONES, ZoneKey, ZoneCell);
      ZoneCells(filtered).tally[k] ==
        Cell(Plus((if k in seed.tally then seed.tally[k] else OPENING).t, Sum(Matching(filtered, ZoneOf, k))),
             (if k in seed.tally then seed.tally[k] else OPENING).isThree)
  {
    var seed := Seed(COURT_ZONES, ZoneKey, ZoneCell);
    GroupValue(seed, filtered, ZoneOf, OPENING, CellAdd, k);
    FoldCell(if k in seed.tally then seed.tally[k] else OPENING, Matching(filtered, ZoneOf, k));
  }

  /** Every court zone has a bucket carrying its flag and the tally of the entries logged there. */
  lemma ByZoneSeeded(filtered: seq<Entry>, efg: Totals -> real, z: Zone)
    requires z in COURT_ZONES
    ensures z.id in ByZoneSpec(filtered, efg).tally
    ensures ByZoneSpec(filtered, efg).tally[z.id].isThree == z.isThree
    ensures ByZoneSpec(filtered, efg).tally[z.id].t == Sum(Matching(filtered, ZoneOf, z.id))
  {
    var seed := Seed(COURT_ZONES, ZoneKey, ZoneCell);
    CourtTableShape();
    SeedValue(COURT_ZONES, ZoneKey, ZoneCell);
    var i :| 0 <= i < |COURT_ZONES| && COURT_ZONES[i] == z;
    assert seed.tally[z.id] == Cell(ZERO, z.isThree);
    SeedShape(COURT_ZONES, ZoneKey, ZoneCell);
    GroupShape(seed, filtered, ZoneOf, OPENING, CellAdd);
    CellValue(filtered, z.id);
    ZeroPlus(Sum(Matching(filtered, ZoneOf, z.id)));
  }

  /**
   * The buckets are the court zones plus the zones the entries name; a zone
   * that is not on the court gets a bucket only when an entry names it, and
   * that bucket is not a three-point zone and holds the tally of those
   * entries.
   */
  lemma ByZoneUnknown(filtered: seq<Entry>, efg: Totals -> real, k: string)
    ensures k in ByZoneSpec(filtered, efg).tally <==> k in Keys(COURT_ZONES, ZoneKey) || k in Keys(filtered, ZoneOf)
    ensures k in ByZoneSpec(filtered, efg).tally && k !in Keys(COURT_ZONES, ZoneKey) ==>
      !ByZoneSpec(filtered, efg).tally[k].isThree && ByZoneSpec(filtered, efg).tally[k].t == Sum(Matching(filtered, ZoneOf, k))
  {
    var seed := Seed(COURT_ZONES, ZoneKey, ZoneCell);
    SeedShape(COURT_ZONES, ZoneKey, ZoneCell);
    GroupShape(seed, filtered, ZoneOf, OPENING, CellAdd);
    if k in ZoneCells(filtered).tally && k !in Keys(COURT_ZONES, ZoneKey) {
      CellValue(filtered, k);
      ZeroPlus(Sum(Matching(filtered, ZoneOf, k)));
    }
  }

  /** The tallies of a table of cells. */
  function CellTotals(b: Buckets<Cell>): Buckets<Totals> {
    Buckets(b.order, map k | k in b.tally :: b.tally[k].t)
  }

  /** Grouping into cells and then dropping the flags is grouping into tallies. */
  lemma {:induction false} GroupCells(b: Buckets<Cell>, es: seq<Entry>)
    ensures CellTotals(Group(b, es, ZoneOf, OPENING, CellAdd)) == Group(CellTotals(b), es, ZoneOf, ZERO, Add)
  {
    if es != [] {
      var init := es[..|es| - 1];
      var e := es[|es| - 1];
      GroupCells(b, init);
      var g := Group(b, init, ZoneOf, OPENING, CellAdd);
      var k := ZoneOf(e);
      var lhs := CellTotals(Into(g, e, ZoneOf, OPENING, CellAdd));
      var rhs := Into(CellTotals(g), e, ZoneOf, ZERO, Add);
      assert lhs.order == rhs.order;
      assert lhs.tally == rhs.tally;
    }
  }

  /** Each entry adds to exactly one bucket: the bucket tallies add up to the tally of all the entries. */
  lemma ByZoneTotal(filtered: seq<Entry>)
    ensures Valid(CellTotals(ZoneCells(filtered)))
    ensures TotalOver(CellTotals(ZoneCells(filtered)).order, CellTotals(ZoneCells(filtered)).tally) == Sum(filtered)
  {
    var seed := Seed(COURT_ZONES, ZoneKey, ZoneCell);
    GroupCells(seed, filtered);
    SeedShape(COURT_ZONES, ZoneKey, ZoneCell);
    var s := CellTotals(seed);
    assert Valid(s);
    forall k | k in s.tally ensures s.tally[k] == ZERO {
      var z :| z in COURT_ZONES && ZoneKey(z) == k;
      SeedOfZeros(COURT_ZONES, k);
    }
    ZeroSeedTotal(s.order, s.tally);
    GroupTotal(s, filtered, ZoneOf);
    ZeroPlus(Sum(filtered));
  }

  /** Every seeded cell starts at a zero tally. */
  lemma {:induction false} SeedOfZeros(zs: seq<Zone>, k: string)
    requires k in Seed(zs, ZoneKey, ZoneCell).tally
    ensures Seed(zs, ZoneKey, ZoneCell).tally[k].t == ZERO
  {
    if zs != [] {
      var init := zs[..|zs| - 1];
      if k != ZoneKey(zs[|zs| - 1]) {
        SeedOfZeros(init, k);
      }
    }
  }
}
