/**
 * The game screen: the golf name of a score, and the handler that records the
 * typed number of sips for the whole roster and then moves on or finishes.
 */
module Game {
  import opened Wrappers
  import opened Decimal
  import opened PubGolfContext

  datatype ScoreType = ScoreType(name: string, color: string)

  const Purple := "#8B5CF6"
  const Blue := "#3B82F6"
  const Green := "#10B981"
  const Grey := "#6B7280"
  const Amber := "#F59E0B"
  const Orange := "#F97316"
  const Red := "#EF4444"

  /** `getScoreType`: named scores for 1 to 6 sips, "+<sips - 4>" for anything else. */
  function GetScoreType(sips: int): ScoreType {
    if sips == 1 then ScoreType("Hole in One!", Purple)
    else if sips == 2 then ScoreType("Eagle", Blue)
    else if sips == 3 then ScoreType("Birdie", Green)
    else if sips == 4 then ScoreType("Par", Grey)
    else if sips == 5 then ScoreType("Bogey", Amber)
    else if sips == 6 then ScoreType("Double Bogey", Orange)
    else ScoreType("+" + IntToString(sips - 4), Red)
  }

  /** The golf names of one to six sips. */
  lemma NamedScores()
    ensures GetScoreType(1) == ScoreType("Hole in One!", "#8B5CF6")
    ensures GetScoreType(2) == ScoreType("Eagle", "#3B82F6")
    ensures GetScoreType(3) == ScoreType("Birdie", "#10B981")
    ensures GetScoreType(4) == ScoreType("Par", "#6B7280")
    ensures GetScoreType(5) == ScoreType("Bogey", "#F59E0B")
    ensures GetScoreType(6) == ScoreType("Double Bogey", "#F97316")
  {
  }

  /**
   * Above six sips the label is "+" and the decimal digits of `sips - 4`, in
   * red; reading the digits back gives `sips - 4` (so 9 sips is "+5").
   */
  lemma ScoreAboveSix(sips: int)
    requires sips > 6
    ensures var t := GetScoreType(sips);
      && t.name == "+" + NatToString(sips - 4)
      && t.color == "#EF4444"
      && IsCanonical(t.name[1..]) && DigitsValue(t.name[1..]) == sips - 4
  {
    var t := GetScoreType(sips);
    assert t.name[1..] == NatToString(sips - 4);
    DigitsValueOfNatToString(sips - 4);
  }

  lemma ScoreTenIsPlusSix()
    ensures GetScoreType(10).name == "+6"
  {
    assert NatToString(6) == "6";
  }

  /** Different numbers of sips never share a label. */
  lemma ScoreLabelsDistinct(a: int, b: int)
    requires a != b
    ensures GetScoreType(a).name != GetScoreType(b).name
  {
    if 1 <= a <= 6 && 1 <= b <= 6 {
      NamedLabelsDistinct(a, b);
    } else if !(1 <= a <= 6) && !(1 <= b <= 6) {
      PlusLabelsDistinct(a, b);
    } else {
      LabelStart(a);
      LabelStart(b);
    }
  }

  lemma NamedLabelsDistinct(a: int, b: int)
    requires 1 <= a <= 6 && 1 <= b <= 6 && a != b
    ensures GetScoreType(a).name != GetScoreType(b).name
  {
  }

  lemma PlusLabelsDistinct(a: int, b: int)
    requires !(1 <= a <= 6) && !(1 <= b <= 6) && a != b
    ensures GetScoreType(a).name != GetScoreType(b).name
  {
    var sa, sb := IntToString(a - 4), IntToString(b - 4);
    assert sa != sb;
    assert GetScoreType(a).name[1..] == sa;
    assert GetScoreType(b).name[1..] == sb;
  }

  /** A named score's label starts with a letter, any other with '+'. */
  lemma LabelStart(sips: int)
    ensures |GetScoreType(sips).name| > 0
    ensures GetScoreType(sips).name[0] == '+' <==> !(1 <= sips <= 6)
  {
  }

  /** Every number of sips, zero and negative ones included, gets a non-empty label in one of the seven colours. */
  lemma ScoreTypeTotal(sips: int)
    ensures GetScoreType(sips).name != ""
    ensures GetScoreType(sips).color in {Purple, Blue, Green, Grey, Amber, Orange, Red}
    ensures GetScoreType(sips).color == Red <==> !(1 <= sips <= 6)
  {
  }

  /** The set of ids of a roster. */
  function RosterIds(players: seq<Player>): set<int> {
    set i | 0 <= i < |players| :: players[i].id
  }

  /** The score map `handleRecordScore` builds: every roster id, all with the same value. */
  function UniformScores(players: seq<Player>, sips: int): (m: HoleScores)
    ensures m.Keys == RosterIds(players)
    ensures forall id :: id in m ==> m[id] == sips
  {
    map id | id in RosterIds(players) :: sips
  }

  /** The `players.forEach` loop that fills `newScores`. */
  method BuildHoleScores(players: seq<Player>, sips: int) returns (m: HoleScores)
    ensures m == UniformScores(players, sips)
  {
    m := map[];
    var i := 0;
    while i < |players|
      invariant 0 <= i <= |players|
      invariant m.Keys == RosterIds(players[..i])
      invariant forall id :: id in m ==> m[id] == sips
    {
      assert RosterIds(players[..i + 1]) == RosterIds(players[..i]) + {players[i].id} by {
        assert forall j :: 0 <= j < i ==> players[..i + 1][j] == players[..i][j];
        assert players[..i + 1][i] == players[i];
      }
      m := m[players[i].id := sips];
      i := i + 1;
    }
    assert players[..i] == players;
  }

  /** The screen's own state; the session and the roster live in the shared container. */
  class GameScreen {
    const context: Store
    var sips: string
    var gameComplete: bool

    constructor (context: Store)
      ensures this.context == context && sips == "" && !gameComplete
    {
      this.context := context;
      sips := "";
      gameComplete := false;
    }

    /**
     * `handleRecordScore`: without typed sips or without players nothing
     * happens. Otherwise every rostered player gets the typed number on the
     * current hole, the input is cleared, and the game moves to the next hole
     * unless it was on its last one, in which case it is marked complete.
     */
    method HandleRecordScore()
      requires context.activeGame.Some?
      requires IsDigits(sips)
      modifies this, context
      ensures context.courses == old(context.courses) && context.players == old(context.players)
      ensures context.samplePubs == old(context.samplePubs)
      ensures old(sips) == "" || old(context.players) == [] ==>
        context.activeGame == old(context.activeGame) && sips == old(sips) && gameComplete == old(gameComplete)
      ensures old(sips) != "" && old(context.players) != [] ==>
        var g := old(context.activeGame.value);
        var recorded := Recorded(old(context.activeGame), g.currentHole,
                                 UniformScores(old(context.players), DigitsValue(old(sips))));
        && context.activeGame == Advanced(recorded)
        && sips == ""
        && gameComplete == (old(gameComplete) || !CanAdvance(g))
    {
      if sips != "" && |context.players| > 0 {
        var g := context.activeGame.value;
        var newScores := BuildHoleScores(context.players, DigitsValue(sips));
        context.RecordScore(g.currentHole, newScores);
        sips := "";
        if g.currentHole < g.course.holes - 1 {
          context.AdvanceHole();
        } else {
          gameComplete := true;
        }
      }
    }
  }

  /**
   * After recording, the game advances by one iff it was not on its last
   * hole, and the recorded hole holds the same score for exactly the roster.
   */
  lemma RecordThenAdvance(g: GameState, players: seq<Player>, sips: int)
    ensures var r := Advanced(Recorded(Some(g), g.currentHole, UniformScores(players, sips)));
      && r.Some?
      && r.value.currentHole == (if g.currentHole < g.course.holes - 1 then g.currentHole + 1 else g.currentHole)
      && r.value.scores.Keys == g.scores.Keys + {g.currentHole}
      && r.value.scores[g.currentHole].Keys == RosterIds(players)
      && (forall id :: id in r.value.scores[g.currentHole] ==> r.value.scores[g.currentHole][id] == sips)
      && r.value.course == g.course && r.value.players == g.players
  {
    RecordedEffect(Some(g), g.currentHole, UniformScores(players, sips));
  }
}
