/**
 * The app's shared state container: its record types, the courses list, the
 * player roster and the single nullable active-game slot, with the
 * operations the screens call on it.
 *
 * Distances are integer tenths of a kilometre and ratings integer tenths of a
 * star, so `distance: 0.2` is 2 and `rating: 4.5` is 45.
 */
module PubGolfContext {
  import opened Wrappers

  datatype Pub = Pub(id: int, name: string, distance: int, rating: int, kind: string)

  datatype Course = Course(
    id: int, name: string, holes: int, distance: int, duration: int,
    difficulty: string, rating: int, pubs: seq<Pub>)

  /** A course without its id (`Omit<Course, 'id'>`), as handed to `createCourse`. */
  datatype CourseDraft = CourseDraft(
    name: string, holes: int, distance: int, duration: int,
    difficulty: string, rating: int, pubs: seq<Pub>)
  {
    function WithId(id: int): Course {
      Course(id, name, holes, distance, duration, difficulty, rating, pubs)
    }
  }

  datatype Player = Player(id: int, name: string)

  /** One hole's scores: player id to sips. */
  type HoleScores = map<int, int>

  datatype GameState = GameState(
    course: Course, players: seq<Player>, scores: map<int, HoleScores>, currentHole: int)

  /** The catalog the container starts with. */
  const InitialPubs: seq<Pub> := [
    Pub(1, "The Crown & Anchor", 2, 45, "Traditional Pub"),
    Pub(2, "Brewdog Bar", 4, 43, "Craft Beer"),
    Pub(3, "The Red Lion", 6, 41, "Sports Bar"),
    Pub(4, "Craft & Co", 8, 44, "Gastropub"),
    Pub(5, "The Barrel House", 10, 42, "Whiskey Bar"),
    Pub(6, "Hops & Barley", 12, 46, "Microbrewery"),
    Pub(7, "The Local Tavern", 14, 40, "Neighborhood Bar"),
    Pub(8, "Sunset Rooftop", 16, 47, "Rooftop Bar"),
    Pub(9, "The Underground", 18, 43, "Cocktail Lounge")
  ]

  const InitialPlayers: seq<Player> := [Player(1, "You")]

  // ---------------------------------------------------------------------
  // The active-game slot as a value: what each operation makes of it.
  // ---------------------------------------------------------------------

  /** The session `startGame` creates. */
  function Started(course: Course, players: seq<Player>): GameState {
    GameState(course, players, map[], 0)
  }

  /** `recordScore(hole, scores)`: the hole's map is replaced, nothing is added up. */
  function Recorded(slot: Option<GameState>, hole: int, scores: HoleScores): Option<GameState> {
    match slot
    case None => None
    case Some(g) => Some(g.(scores := g.scores[hole := scores]))
  }

  /** The guard of `advanceHole`. */
  predicate CanAdvance(g: GameState) {
    g.currentHole < g.course.holes - 1
  }

  /** `advanceHole()`. */
  function Advanced(slot: Option<GameState>): Option<GameState> {
    match slot
    case None => None
    case Some(g) => if CanAdvance(g) then Some(g.(currentHole := g.currentHole + 1)) else slot
  }

  /** The calls a game screen makes on a running session. */
  datatype Op = RecordOp(hole: int, scores: HoleScores) | AdvanceOp | EndOp

  function Step(slot: Option<GameState>, op: Op): Option<GameState> {
    match op
    case RecordOp(h, m) => Recorded(slot, h, m)
    case AdvanceOp => Advanced(slot)
    case EndOp => None
  }

  /** The slot after the calls `ops`, made one after another. */
  function Run(slot: Option<GameState>, ops: seq<Op>): Option<GameState>
    decreases |ops|
  {
    if ops == [] then slot else Run(Step(slot, ops[0]), ops[1..])
  }

  function Max(a: int, b: int): int {
    if a < b then b else a
  }

  /** The hole index never leaves `0 .. max(0, holes - 1)`. */
  predicate HoleInRange(slot: Option<GameState>) {
    slot.Some? ==> 0 <= slot.value.currentHole <= Max(0, slot.value.course.holes - 1)
  }

  // ---------------------------------------------------------------------
  // Properties of the operations.
  // ---------------------------------------------------------------------

  /** A started session plays the given course with the given roster, from hole 0 with no scores. */
  lemma StartedSession(course: Course, players: seq<Player>)
    ensures var g := Started(course, players);
      g.course == course && g.players == players && g.scores == map[] && g.currentHole == 0
      && HoleInRange(Some(g))
  {
  }

  /**
   * `recordScore` without a game changes nothing; with one it sets exactly the
   * given hole to exactly the given map and leaves every other part alone.
   */
  lemma RecordedEffect(slot: Option<GameState>, hole: int, scores: HoleScores)
    ensures slot.None? ==> Recorded(slot, hole, scores) == None
    ensures slot.Some? ==> var r := Recorded(slot, hole, scores);
      && r.Some?
      && hole in r.value.scores && r.value.scores[hole] == scores
      && r.value.scores.Keys == slot.value.scores.Keys + {hole}
      && (forall h :: h in slot.value.scores && h != hole ==> r.value.scores[h] == slot.value.scores[h])
      && r.value.course == slot.value.course
      && r.value.players == slot.value.players
      && r.value.currentHole == slot.value.currentHole
  {
  }

  /** Recording a hole twice keeps only the second map: scores are overwritten, not summed. */
  lemma RecordOverwrites(slot: Option<GameState>, hole: int, first: HoleScores, second: HoleScores)
    ensures Recorded(Recorded(slot, hole, first), hole, second) == Recorded(slot, hole, second)
  {
    if slot.Some? {
      var g := slot.value;
      assert g.scores[hole := first][hole := second] == g.scores[hole := second];
    }
  }

  /** `advanceHole` moves on by exactly one hole iff a game runs and it is not on its last hole. */
  lemma AdvancedEffect(slot: Option<GameState>)
    ensures Advanced(slot) != slot <==> slot.Some? && CanAdvance(slot.value)
    ensures slot.Some? && CanAdvance(slot.value) ==>
      Advanced(slot) == Some(slot.value.(currentHole := slot.value.currentHole + 1))
  {
    if slot.Some? && CanAdvance(slot.value) {
      assert Advanced(slot).value.currentHole != slot.value.currentHole;
    }
  }

  /** On the last hole `advanceHole` is a no-op, so repeating it changes nothing more. */
  lemma AdvanceAtLastHoleIsNoop(g: GameState)
    requires g.currentHole == g.course.holes - 1
    ensures Advanced(Some(g)) == Some(g)
    ensures Advanced(Advanced(Some(g))) == Advanced(Some(g))
  {
  }

  /** Every call keeps the hole index in range. */
  lemma StepKeepsHoleInRange(slot: Option<GameState>, op: Op)
    requires HoleInRange(slot)
    ensures HoleInRange(Step(slot, op))
  {
  }

  /** From a fresh session, any sequence of calls keeps `0 <= currentHole <= max(0, holes - 1)`. */
  lemma {:induction false} RunKeepsHoleInRange(slot: Option<GameState>, ops: seq<Op>)
    requires HoleInRange(slot)
    ensures HoleInRange(Run(slot, ops))
    decreases |ops|
  {
    if ops != [] {
      StepKeepsHoleInRange(slot, ops[0]);
      RunKeepsHoleInRange(Step(slot, ops[0]), ops[1..]);
    }
  }

  /** The calls never change which course is played or by whom, only while the game runs. */
  lemma {:induction false} RunKeepsCourse(g: GameState, ops: seq<Op>)
    ensures Run(Some(g), ops).Some? ==>
      Run(Some(g), ops).value.course == g.course && Run(Some(g), ops).value.players == g.players
    decreases |ops|
  {
    if ops != [] {
      var next := Step(Some(g), ops[0]);
      if next.Some? {
        RunKeepsCourse(next.value, ops[1..]);
      } else {
        RunFromEmpty(ops[1..]);
      }
    }
  }

  /** With no game, the game-screen calls leave the slot empty. */
  lemma {:induction false} RunFromEmpty(ops: seq<Op>)
    ensures Run(None, ops) == None
    decreases |ops|
  {
    if ops != [] {
      RunFromEmpty(ops[1..]);
    }
  }

  /**
   * A course whose hole count matches its non-empty pub list always has a pub
   * for the current hole, whatever the screen calls after `startGame`.
   */
  lemma MatchedCourseAlwaysHasPub(course: Course, players: seq<Player>, ops: seq<Op>)
    requires course.holes == |course.pubs| >= 1
    ensures var slot := Run(Some(Started(course, players)), ops);
      slot.Some? ==> 0 <= slot.value.currentHole < |slot.value.course.pubs|
  {
    RunKeepsHoleInRange(Some(Started(course, players)), ops);
    RunKeepsCourse(Started(course, players), ops);
  }

  // ---------------------------------------------------------------------
  // The container itself.
  // ---------------------------------------------------------------------

  class Store {
    var courses: seq<Course>
    var samplePubs: seq<Pub>
    var activeGame: Option<GameState>
    var players: seq<Player>

    /** The container's invariant: a running session's hole index is within its course. */
    predicate Valid()
      reads this
    {
      HoleInRange(activeGame)
    }

    constructor ()
      ensures courses == [] && samplePubs == InitialPubs
      ensures activeGame == None && players == InitialPlayers
      ensures Valid()
    {
      courses := [];
      samplePubs := InitialPubs;
      activeGame := None;
      players := InitialPlayers;
    }

    /** `createCourse`: appends the draft, given the fresh id, after the existing courses. */
    method CreateCourse(draft: CourseDraft, id: int)
      modifies this
      ensures courses == old(courses) + [draft.WithId(id)]
      ensures |courses| == |old(courses)| + 1 && courses[..|old(courses)|] == old(courses)
      ensures samplePubs == old(samplePubs) && activeGame == old(activeGame) && players == old(players)
      ensures old(Valid()) ==> Valid()
    {
      courses := courses + [draft.WithId(id)];
      assert courses[..|old(courses)|] == old(courses);
    }

    /** `startGame`: replaces whatever session there was, with a snapshot of the roster. */
    method StartGame(course: Course)
      modifies this
      ensures activeGame == Some(Started(course, old(players)))
      ensures courses == old(courses) && samplePubs == old(samplePubs) && players == old(players)
      ensures Valid()
    {
      activeGame := Some(Started(course, players));
    }

    method RecordScore(hole: int, scores: HoleScores)
      modifies this
      ensures activeGame == Recorded(old(activeGame), hole, scores)
      ensures courses == old(courses) && samplePubs == old(samplePubs) && players == old(players)
      ensures old(Valid()) ==> Valid()
    {
      if activeGame.Some? {
        var g := activeGame.value;
        activeGame := Some(g.(scores := g.scores[hole := scores]));
      }
    }

    method AdvanceHole()
      modifies this
      ensures activeGame == Advanced(old(activeGame))
      ensures courses == old(courses) && samplePubs == old(samplePubs) && players == old(players)
      ensures old(Valid()) ==> Valid()
    {
      if activeGame.Some? && activeGame.value.currentHole < activeGame.value.course.holes - 1 {
        var g := activeGame.value;
        activeGame := Some(g.(currentHole := g.currentHole + 1));
      }
    }

    /** `endGame`: empties the slot whatever it held; doing it again changes nothing. */
    method EndGame()
      modifies this
      ensures activeGame == None
      ensures courses == old(courses) && samplePubs == old(samplePubs) && players == old(players)
      ensures Valid()
    {
      activeGame := None;
    }

    /** `setPlayers`: replaces the roster; a running session keeps its own snapshot. */
    method SetPlayers(newPlayers: seq<Player>)
      modifies this
      ensures players == newPlayers
      ensures courses == old(courses) && samplePubs == old(samplePubs) && activeGame == old(activeGame)
      ensures old(Valid()) ==> Valid()
    {
      players := newPlayers;
    }
  }
}
