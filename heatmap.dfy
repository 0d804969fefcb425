/**
 * The zone grid of src/Heatmap.jsx: per-zone tallies seeded from the shared
 * zone table, the largest attempt count that scales the density view, the
 * label and ratio of a cell in each mode, and the colour of a ratio. The
 * eFG% formula lives in a module that is not part of this model, so `efg`
 * is a parameter; the text of a label and of a colour is not modelled, only
 * what it shows.
 */
module Heatmap {
  import opened Records
  import opened Constants
  import opened Keyed
  import opened Tally

  // ---------------------------------------------------------------------------
  // The grid

  /** `GRID.flat()`: three rows of five cells; the restricted area appears twice. */
  const GRID: seq<string> := [
    "corner_left", "wing_left", "top", "wing_right", "corner_right",
    "elbow_left", "mid_left", "paint", "mid_right", "elbow_right",
    "short_left", "paint_restricted", "free_throw", "paint_restricted", "short_right"
  ]

  /** For each grid cell, the position of its zone in the shared table. */
  const GRID_POSITION: seq<int> := [0, 1, 2, 3, 4, 5, 7, 12, 8, 6, 9, 11, 13, 11, 10]

  /** Every grid cell names a zone of the shared table, so every cell has a seeded bucket. */
  lemma GridZonesKnown()
    ensures forall i :: 0 <= i < |GRID| ==> 0 <= GRID_POSITION[i] < |ZONES| && ZONES[GRID_POSITION[i]].id == GRID[i]
    ensures forall zid :: zid in GRID ==> zid in Keys(ZONES, ZoneKey)
  {
    assert |GRID| == |GRID_POSITION| == 15;
    forall zid | zid in GRID ensures zid in Keys(ZONES, ZoneKey) {
      var i :| 0 <= i < |GRID| && GRID[i] == zid;
      assert ZoneKey(ZONES[GRID_POSITION[i]]) == zid;
    }
  }

  // ---------------------------------------------------------------------------
  // The zone tallies

  function ZeroOf(z: Zone): Totals { ZERO }

  /** The `zone` map: a zero tally for every zone of the table, then each entry added to its zone's tally. */
  function ZoneTallies(filtered: seq<Entry>): Buckets<Totals> {
    Group(Seed(ZONES, ZoneKey, ZeroOf), filtered, ZoneOf, ZERO, Add)
  }

  /**
   * The two loops: `zone.set(z.id, zero)` for every zone, then for every
   * entry `zone.get(e.zoneId) || zero`, the entry added, and the tally set
   * back under the entry's zone.
   */
  method FillZones(filtered: seq<Entry>) returns (zone: Buckets<Totals>)
    ensures zone == ZoneTallies(filtered)
  {
    var seed := SeedInto(ZONES, ZoneKey, ZeroOf);
    zone := GroupInto(seed, filtered, ZoneOf, ZERO, Add);
  }

  /** Every seeded bucket holds zero. */
  lemma {:induction false} SeedIsZero(zs: seq<Zone>, k: string)
    requires k in Seed(zs, ZoneKey, ZeroOf).tally
    ensures Seed(zs, ZoneKey, ZeroOf).tally[k] == ZERO
  {
    if zs != [] && k != ZoneKey(zs[|zs| - 1]) {
      SeedIsZero(zs[..|zs| - 1], k);
    }
  }

  /**
   * The buckets are the table's zones plus any zone an entry names; each
   * holds the tally of exactly the entries logged in that zone (so a zone
   * nobody shot from holds zero, and `threesMade` counts only three-point
   * entries).
   */
  lemma ZoneTalliesMeans(filtered: seq<Entry>, k: string)
    ensures k in ZoneTallies(filtered).tally <==> k in Keys(ZONES, ZoneKey) || k in Keys(filtered, ZoneOf)
    ensures k in ZoneTallies(filtered).tally ==> ZoneTallies(filtered).tally[k] == Sum(Matching(filtered, ZoneOf, k))
  {
    var seed := Seed(ZONES, ZoneKey, ZeroOf);
    SeedShape(ZONES, ZoneKey, ZeroOf);
    GroupShape(seed, filtered, ZoneOf, ZERO, Add);
    if k in ZoneTallies(filtered).tally {
      GroupValue(seed, filtered, ZoneOf, ZERO, Add, k);
      if k in seed.tally {
        SeedIsZero(ZONES, k);
      }
      FoldAdd(ZERO, Matching(filtered, ZoneOf, k));
      ZeroPlus(Sum(Matching(filtered, ZoneOf, k)));
    }
  }

  /** Each entry adds to exactly one bucket: the buckets sum to the tally of all the entries. */
  lemma ZoneTalliesTotal(filtered: seq<Entry>)
    ensures TotalOver(ZoneTallies(filtered).order, ZoneTallies(filtered).tally) == Sum(filtered)
  {
    var seed := Seed(ZONES, ZoneKey, ZeroOf);
    SeedShape(ZONES, ZoneKey, ZeroOf);
    forall k | k in seed.tally ensures seed.tally[k] == ZERO {
      SeedIsZero(ZONES, k);
    }
    ZeroSeedTotal(seed.order, seed.tally);
    GroupTotal(seed, filtered, ZoneOf);
    ZeroPlus(Sum(filtered));
  }

  // ---------------------------------------------------------------------------
  // maxAtt

  /** `Array.from(zone.values())`, in the map's order. */
  function ValuesOf(order: seq<string>, tally: map<string, Totals>): (vs: seq<Totals>)
    ensures |vs| == |order|
    ensures forall i :: 0 <= i < |order| ==> vs[i] == TallyOf(tally, order[i])
  {
    if order == [] then [] else ValuesOf(order[..|order| - 1], tally) + [TallyOf(tally, order[|order| - 1])]
  }

  /** `Math.max(1, ...vs.map(v => v.attempts))`. */
  function MaxAttempts(vs: seq<Totals>): (m: int)
    ensures m >= 1
    ensures forall i :: 0 <= i < |vs| ==> vs[i].attempts <= m
    ensures m == 1 || exists i :: 0 <= i < |vs| && vs[i].attempts == m
  {
    if vs == [] then 1 else
      var m := MaxAttempts(vs[..|vs| - 1]);
      var a := vs[|vs| - 1].attempts;
      if a > m then a else m
  }

  function MaxAtt(zone: Buckets<Totals>): int {
    MaxAttempts(ValuesOf(zone.order, zone.tally))
  }

  /** `maxAtt` is at least 1 and at least every bucket's attempts, and it is 1 or some bucket's attempts. */
  lemma MaxAttBounds(zone: Buckets<Totals>)
    requires Valid(zone)
    ensures MaxAtt(zone) >= 1
    ensures forall k :: k in zone.tally ==> zone.tally[k].attempts <= MaxAtt(zone)
    ensures MaxAtt(zone) == 1 || exists k :: k in zone.tally && zone.tally[k].attempts == MaxAtt(zone)
  {
    var vs := ValuesOf(zone.order, zone.tally);
    forall k | k in zone.tally ensures zone.tally[k].attempts <= MaxAtt(zone) {
      var i :| 0 <= i < |zone.order| && zone.order[i] == k;
      assert vs[i] == zone.tally[k];
    }
    if MaxAtt(zone) != 1 {
      var i :| 0 <= i < |vs| && vs[i].attempts == MaxAtt(zone);
      assert zone.order[i] in zone.tally;
    }
  }

  // ---------------------------------------------------------------------------
  // cellStat and statColor

  datatype Mode = Density | Accuracy | Efg

  /** What a cell's caption shows: `"<n> att"`, `"<p>%"`, `"<p>% eFG"` (as a ratio, rounded when shown) or `'—'`. */
  datatype Label = AttemptsLabel(n: int) | PercentLabel(ratio: real) | EfgLabel(ratio: real) | Dash

  datatype CellView = CellView(caption: Label, ratio: real)

  /** `cellStat(zid)`: a zone missing from the map reads as a zero tally. */
  function CellStat(zone: Buckets<Totals>, zid: string, mode: Mode, efg: Totals -> real): CellView {
    var t := TallyOf(zone.tally, zid);
    match mode
    case Density => CellView(AttemptsLabel(t.attempts), t.attempts as real / MaxAtt(zone) as real)
    case Accuracy =>
      var r := if t.attempts != 0 then t.makes as real / t.attempts as real else 0.0;
      CellView(if t.attempts != 0 then PercentLabel(r) else Dash, r)
    case Efg =>
      var r := if t.attempts != 0 then efg(t) else 0.0;
      CellView(if t.attempts != 0 then EfgLabel(r) else Dash, r)
  }

  /**
   * In the accuracy and eFG views a zone without attempts shows `'—'` and
   * ratio 0, and only such a zone shows `'—'`; in the density view the
   * ratio is at most 1, and at least 0 when attempts are never negative.
   */
  lemma CellStatMeans(zone: Buckets<Totals>, zid: string, mode: Mode, efg: Totals -> real)
    requires Valid(zone)
    ensures var t := TallyOf(zone.tally, zid);
      && (mode != Density ==> (CellStat(zone, zid, mode, efg).caption == Dash <==> t.attempts == 0))
      && (mode != Density && t.attempts == 0 ==> CellStat(zone, zid, mode, efg).ratio == 0.0)
      && (mode == Density ==> CellStat(zone, zid, mode, efg).ratio <= 1.0)
      && (mode == Density && t.attempts >= 0 ==> CellStat(zone, zid, mode, efg).ratio >= 0.0)
  {
    if mode == Density {
      TallyWithinMax(zone, zid);
      DensityRatio(TallyOf(zone.tally, zid).attempts, MaxAtt(zone));
    }
  }

  /** A zone's attempts, present or not, are at most `maxAtt`, which is at least 1. */
  lemma TallyWithinMax(zone: Buckets<Totals>, zid: string)
    requires Valid(zone)
    ensures 1 <= MaxAtt(zone) && TallyOf(zone.tally, zid).attempts <= MaxAtt(zone)
  {
    MaxAttBounds(zone);
  }

  /** `attempts / maxAtt` is at most 1, and at least 0 for non-negative attempts. */
  lemma DensityRatio(a: int, m: int)
    requires 1 <= m && a <= m
    ensures a as real / m as real <= 1.0
    ensures a >= 0 ==> a as real / m as real >= 0.0
  {
    assert a as real / m as real * m as real == a as real;
  }

  /** `Math.max(0, Math.min(1, val))`. */
  function Clamp01(val: real): (t: real)
    ensures 0.0 <= t <= 1.0
    ensures 0.0 <= val <= 1.0 ==> t == val
    ensures val < 0.0 ==> t == 0.0
    ensures val > 1.0 ==> t == 1.0
  {
    if val < 0.0 then 0.0 else if val > 1.0 then 1.0 else val
  }

  /** `Math.round`: halves round up. */
  function Round(x: real): int {
    (x + 0.5).Floor
  }

  lemma RoundBounds(x: real, hi: int)
    requires 0.0 <= x <= hi as real
    ensures 0 <= Round(x) <= hi
  {
  }

  /** The colour `rgb(20, g, b)` of a cell. */
  datatype Rgb = Rgb(r: int, g: int, b: int)

  /** `statColor(val)`: the clamped ratio runs from blue (0) to green (1). */
  function StatColor(val: real): (c: Rgb)
    ensures c.r == 20 && 0 <= c.g <= 200 && 0 <= c.b <= 200
    ensures val <= 0.0 ==> c == Rgb(20, 0, 200)
    ensures val >= 1.0 ==> c == Rgb(20, 200, 0)
  {
    var t := Clamp01(val);
    RoundBounds(200.0 * t, 200);
    RoundBounds(200.0 * (1.0 - t), 200);
    Rgb(20, Round(200.0 * t), Round(200.0 * (1.0 - t)))
  }

  /** A larger ratio is never less green: the green channel is monotone in the ratio. */
  lemma StatColorMonotone(u: real, v: real)
    requires u <= v
    ensures StatColor(u).g <= StatColor(v).g
    ensures StatColor(u).b >= StatColor(v).b
  {
  }
}
