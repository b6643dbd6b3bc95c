/**
 * The auto-generate screen: pick a hole count and a maximum distance, and a
 * course is built from the catalog pubs within that distance.
 */
module AutoCourse {
  import opened Wrappers
  import opened Seqs
  import opened Decimal
  import opened PubGolfContext
  import opened CourseMetadata

  /** The hole counts the screen offers, and its starting choice. */
  const HoleChoices: seq<nat> := [6, 9, 12]
  const DefaultHoles: nat := 9

  /** The distance slider: whole kilometres from 1 to 5, starting at 2. */
  const MinDistanceKm: int := 1
  const MaxDistanceKm: int := 5
  const DefaultDistanceKm: int := 2

  predicate ValidSettings(holes: nat, km: int) {
    holes in HoleChoices && MinDistanceKm <= km <= MaxDistanceKm
  }

  /** The screen starts on a setting it offers. */
  lemma DefaultSettingsValid()
    ensures ValidSettings(DefaultHoles, DefaultDistanceKm)
  {
    assert HoleChoices[1] == DefaultHoles;
  }

  function Within(km: int): Pub -> bool {
    (p: Pub) => p.distance <= 10 * km
  }

  /** The catalog pubs no further than `km` kilometres, in catalog order. */
  function Qualifying(catalog: seq<Pub>, km: int): seq<Pub> {
    Filter(catalog, Within(km))
  }

  function Min(a: int, b: int): int {
    if a < b then a else b
  }

  /** "Auto Course (N)". */
  function AutoName(holes: nat): string {
    "Auto Course (" + NatToString(holes) + ")"
  }

  /**
   * The course `generateCourse` builds, as written: up to `holes` qualifying
   * pubs, while the hole count, distance and derived fields come from the
   * settings, whatever number of pubs qualified.
   */
  function GeneratedCourse(catalog: seq<Pub>, holes: nat, km: int, id: int): Course {
    var q := Qualifying(catalog, km);
    Course(id, AutoName(holes), holes, 10 * km, Duration(holes), Difficulty(holes),
           BuiltCourseRating, q[..Min(holes, |q|)])
  }

  /** Every generated pub lies within the chosen distance. */
  lemma GeneratedPubsWithinDistance(catalog: seq<Pub>, holes: nat, km: int, id: int)
    ensures var c := GeneratedCourse(catalog, holes, km, id);
      forall i :: 0 <= i < |c.pubs| ==> c.pubs[i].distance <= 10 * km && c.pubs[i] in catalog
  {
    var q := Qualifying(catalog, km);
    forall i | 0 <= i < Min(holes, |q|) ensures q[i].distance <= 10 * km && q[i] in catalog {
      assert Within(km)(q[i]);
    }
  }

  /** The pubs are the first `min(holes, #qualifying)` qualifying pubs, in catalog order. */
  lemma GeneratedPubsArePrefix(catalog: seq<Pub>, holes: nat, km: int, id: int)
    ensures var c := GeneratedCourse(catalog, holes, km, id);
      var q := Qualifying(catalog, km);
      && |c.pubs| == Min(holes, |q|)
      && c.pubs == q[..|c.pubs|]
      && IsSubsequence(c.pubs, catalog)
  {
    var q := Qualifying(catalog, km);
    PrefixIsSubsequence(q, Min(holes, |q|));
    FilterIsSubsequence(catalog, Within(km));
    SubsequenceTrans(q[..Min(holes, |q|)], q, catalog);
  }

  /**
   * The derived fields follow the settings: as many holes as chosen (so at
   * least as many as pubs), the chosen distance, 20 minutes per hole, the
   * usual difficulty thresholds, 4.0 stars and the name "Auto Course (N)".
   */
  lemma GeneratedCourseFields(catalog: seq<Pub>, holes: nat, km: int, id: int)
    ensures var c := GeneratedCourse(catalog, holes, km, id);
      && c.id == id && c.name == AutoName(holes)
      && c.holes == holes && |c.pubs| <= c.holes
      && c.distance == 10 * km
      && c.duration == 20 * holes
      && c.difficulty == Difficulty(holes)
      && c.rating == 40
  {
  }

  /** The offered hole counts 6, 9 and 12 are "Easy", "Medium" and "Medium". */
  lemma OfferedDifficulties()
    ensures Difficulty(HoleChoices[0]) == "Easy"
    ensures Difficulty(HoleChoices[1]) == "Medium"
    ensures Difficulty(HoleChoices[2]) == "Medium"
  {
  }

  /** The name shows the chosen count: "Auto Course (9)" for nine holes. */
  lemma AutoNameOfNine()
    ensures AutoName(9) == "Auto Course (9)"
  {
    assert NatToString(9) == "9";
  }

  // ---------------------------------------------------------------------
  // The hole count and the pub list can disagree.
  // ---------------------------------------------------------------------

  /**
   * Six holes within 1 km of the initial catalog give only five pubs.
   * Advancing past the first five holes then puts the game on hole index 5,
   * for which the course has no pub (recording a score between the advances,
   * as the game screen does, leaves the hole index alone: `RecordedEffect`).
   */
  lemma GeneratedCourseRunsOutOfPubs(players: seq<Player>)
    ensures var c := GeneratedCourse(InitialPubs, 6, 1, 0);
      && c.holes == 6 && |c.pubs| == 5
      && var slot := Run(Some(Started(c, players)), [AdvanceOp, AdvanceOp, AdvanceOp, AdvanceOp, AdvanceOp]);
         slot.Some? && slot.value.currentHole == 5 && slot.value.currentHole >= |slot.value.course.pubs|
  {
    QualifyingWithinOneKm();
    var c := GeneratedCourse(InitialPubs, 6, 1, 0);
    FiveAdvances(Started(c, players));
  }

  /** Five of the nine initial pubs lie within 1 km. */
  lemma QualifyingWithinOneKm()
    ensures Qualifying(InitialPubs, 1) == InitialPubs[..5]
  {
    var ds := seq(|InitialPubs|, i requires 0 <= i < |InitialPubs| => InitialPubs[i].distance);
    assert ds == [2, 4, 6, 8, 10, 12, 14, 16, 18];
    QualifyingPrefix(InitialPubs, 1, 5);
  }

  /** When exactly the first `n` pubs lie within `km`, those `n` qualify. */
  lemma QualifyingPrefix(catalog: seq<Pub>, km: int, n: nat)
    requires n <= |catalog|
    requires forall i :: 0 <= i < n ==> catalog[i].distance <= 10 * km
    requires forall i :: n <= i < |catalog| ==> catalog[i].distance > 10 * km
    ensures Qualifying(catalog, km) == catalog[..n]
  {
    var near, far := catalog[..n], catalog[n..];
    assert catalog == near + far;
    FilterConcat(near, far, Within(km));
    forall i | 0 <= i < |near| ensures Within(km)(near[i]) {
    }
    FilterAllKept(near, Within(km));
    forall i | 0 <= i < |far| ensures !Within(km)(far[i]) {
      assert far[i] == catalog[n + i];
    }
    FilterNoneKept(far, Within(km));
  }

  /** On a course of six or more holes, five advances from the start reach hole index 5. */
  lemma FiveAdvances(g: GameState)
    requires g.currentHole == 0 && g.course.holes >= 6
    ensures var slot := Run(Some(g), [AdvanceOp, AdvanceOp, AdvanceOp, AdvanceOp, AdvanceOp]);
      slot.Some? && slot.value.currentHole == 5 && slot.value.course == g.course
  {
    var ops := [AdvanceOp, AdvanceOp, AdvanceOp, AdvanceOp, AdvanceOp];
    var s1 := Step(Some(g), AdvanceOp);
    var s2 := Step(s1, AdvanceOp);
    var s3 := Step(s2, AdvanceOp);
    var s4 := Step(s3, AdvanceOp);
    var s5 := Step(s4, AdvanceOp);
    assert s5.Some? && s5.value.currentHole == 5;
    assert Run(s5, []) == s5;
    assert Run(s4, ops[4..]) == s5;
    assert Run(s3, ops[3..]) == s5;
    assert Run(s2, ops[2..]) == s5;
    assert Run(s1, ops[1..]) == s5;
  }

  /**
   * The generator with the hole count taken from the pubs actually found (as
   * the custom-course screen does), and no course when none qualifies.
   */
  function MatchedGeneratedCourse(catalog: seq<Pub>, holes: nat, km: int, id: int): Option<Course> {
    var q := Qualifying(catalog, km);
    var n := Min(holes, |q|);
    if n == 0 then None
    else Some(Course(id, AutoName(holes), n, 10 * km, Duration(n), Difficulty(n),
                     BuiltCourseRating, q[..n]))
  }

  /**
   * The matched generator keeps the same pubs, has one hole per pub, and its
   * course never runs out of pubs, whatever the game screen calls.
   */
  lemma MatchedGeneratedCourseAlwaysHasPub(catalog: seq<Pub>, holes: nat, km: int, id: int,
                                            players: seq<Player>, ops: seq<Op>)
    ensures MatchedGeneratedCourse(catalog, holes, km, id).None? <==>
      holes == 0 || Qualifying(catalog, km) == []
    ensures MatchedGeneratedCourse(catalog, holes, km, id).Some? ==>
      var c := MatchedGeneratedCourse(catalog, holes, km, id).value;
      && c.pubs == GeneratedCourse(catalog, holes, km, id).pubs
      && c.holes == |c.pubs|
      && var slot := Run(Some(Started(c, players)), ops);
         slot.Some? ==> 0 <= slot.value.currentHole < |slot.value.course.pubs|
  {
    var m := MatchedGeneratedCourse(catalog, holes, km, id);
    if m.Some? {
      MatchedCourseAlwaysHasPub(m.value, players, ops);
    }
  }
}
