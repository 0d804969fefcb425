/** The lookup tables of src/constants.js: court zones, shot types and off-dribble subtypes. */
module Constants {
  import opened Optional

  datatype Zone = Zone(id: string, caption: string, isThree: bool)
  datatype Choice = Choice(id: string, caption: string)

  const ZONES: seq<Zone> := [
    Zone("corner_left", "Corner L", true),
    Zone("wing_left", "Wing L", true),
    Zone("top", "Top", true),
    Zone("wing_right", "Wing R", true),
    Zone("corner_right", "Corner R", true),
    Zone("elbow_left", "Elbow L", false),
    Zone("elbow_right", "Elbow R", false),
    Zone("mid_left", "Mid L", false),
    Zone("mid_right", "Mid R", false),
    Zone("short_left", "Short L", false),
    Zone("short_right", "Short R", false),
    Zone("paint_restricted", "Paint (R)", false),
    Zone("paint", "Paint", false),
    Zone("free_throw", "Free Throw", false)
  ]

  const SHOT_TYPES: seq<Choice> := [
    Choice("catch_shoot", "Catch & Shoot"),
    Choice("off_dribble", "Off-Dribble"),
    Choice("free_throw", "Free Throw")
  ]

  const SUBTYPES: seq<Choice> := [
    Choice("none", "—"),
    Choice("straight", "Straight"),
    Choice("lateral_xover", "Lateral + Crossover"),
    Choice("jab_escape", "Jab + Escape"),
    Choice("double_xover", "Double Crossover")
  ]

  /** The five perimeter (three-point) zone ids. */
  const PERIMETER: set<string> := {"corner_left", "wing_left", "top", "wing_right", "corner_right"}

  /** `zs.find(z => z.id === id)`: the first zone with that id. */
  function FindZoneIn(zs: seq<Zone>, id: string): (r: Option<Zone>)
    ensures r.Some? ==> r.value in zs && r.value.id == id
    ensures r.None? <==> forall z :: z in zs ==> z.id != id
  {
    if zs == [] then None
    else if zs[0].id == id then Some(zs[0])
    else FindZoneIn(zs[1..], id)
  }

  /** `cs.find(c => c.id === id)`: the first choice with that id. */
  function FindChoiceIn(cs: seq<Choice>, id: string): (r: Option<Choice>)
    ensures r.Some? ==> r.value in cs && r.value.id == id
    ensures r.None? <==> forall c :: c in cs ==> c.id != id
  {
    if cs == [] then None
    else if cs[0].id == id then Some(cs[0])
    else FindChoiceIn(cs[1..], id)
  }

  function FindZone(id: string): Option<Zone> {
    FindZoneIn(ZONES, id)
  }

  function ZoneKey(z: Zone): string { z.id }

  /** No two zones of `zs` share an id. */
  predicate UniqueZoneIds(zs: seq<Zone>) {
    forall i, j :: 0 <= i < j < |zs| ==> zs[i].id != zs[j].id
  }

  /** With unique ids, the first match is the only match. */
  lemma {:induction false} FindZoneInUnique(zs: seq<Zone>, z: Zone)
    requires UniqueZoneIds(zs)
    requires z in zs
    ensures FindZoneIn(zs, z.id) == Some(z)
  {
    if zs[0] != z {
      var k :| 1 <= k < |zs| && zs[k] == z;
      assert zs[0].id != zs[k].id;
      assert z in zs[1..];
      FindZoneInUnique(zs[1..], z);
    }
  }

  /** There are 14 zones and their ids are unique. */
  lemma ZoneTableShape()
    ensures |ZONES| == 14
    ensures UniqueZoneIds(ZONES)
  {
    // Length and first letter already tell the fourteen ids apart.
    assert forall i, j :: 0 <= i < j < 14 ==>
      |ZONES[i].id| != |ZONES[j].id| || ZONES[i].id[0] != ZONES[j].id[0];
  }

  /** Exactly the five perimeter zones (corners, wings, top) are three-point zones. */
  lemma ThreesAreThePerimeter()
    ensures forall z :: z in ZONES ==> (z.isThree <==> z.id in PERIMETER)
  {
  }

  /** Every zone of the table is found by its id; `free_throw` is a non-three zone. */
  lemma ZoneLookup()
    ensures forall z :: z in ZONES ==> FindZone(z.id) == Some(z)
    ensures FindZone("free_throw") == Some(Zone("free_throw", "Free Throw", false))
  {
    ZoneTableShape();
    forall z | z in ZONES ensures FindZone(z.id) == Some(z) {
      FindZoneInUnique(ZONES, z);
    }
    assert ZONES[13] == Zone("free_throw", "Free Throw", false);
  }

  /** Each perimeter id names a three-point zone of the table, and the free throw is not one of them. */
  lemma PerimeterZonesFound()
    ensures forall p :: p in PERIMETER ==> p != "free_throw" && FindZone(p).Some? && FindZone(p).value.isThree
  {
    forall p | p in PERIMETER ensures p != "free_throw" && FindZone(p).Some? && FindZone(p).value.isThree {
      PerimeterZoneFound(p);
    }
  }

  lemma PerimeterZoneFound(p: string)
    requires p in PERIMETER
    ensures p != "free_throw" && FindZone(p).Some? && FindZone(p).value.isThree
  {
    var i := if p == "corner_left" then 0 else if p == "wing_left" then 1 else if p == "top" then 2
             else if p == "wing_right" then 3 else 4;
    assert ZONES[i].id == p && ZONES[i].isThree;
    assert p[0] != "free_throw"[0];
    ZoneTableShape();
    FindZoneInUnique(ZONES, ZONES[i]);
  }

  /** The shot-type ids, and `none` as the first (default) subtype. */
  lemma ChoiceTables()
    ensures |SHOT_TYPES| == 3
    ensures SHOT_TYPES[0].id == "catch_shoot" && SHOT_TYPES[1].id == "off_dribble" && SHOT_TYPES[2].id == "free_throw"
    ensures SUBTYPES[0].id == "none" && FindChoiceIn(SUBTYPES, "none") == Some(SUBTYPES[0])
  {
  }
}
