/**
 * The final leaderboard of the game screen: every roster player's total over
 * the recorded holes, sorted ascending by a stable sort.
 */
module Leaderboard {
  import opened Wrappers
  import opened Seqs
  import opened PubGolfContext

  datatype Entry = Entry(name: string, total: int)

  /** A non-empty set has an element. */
  lemma Element(s: set<int>) returns (x: int)
    requires s != {}
    ensures x in s
  {
    if forall y :: y !in s {
      assert false;
    }
    x :| x in s;
  }

  predicate IsMin(s: set<int>, k: int) {
    k in s && forall j :: j in s ==> k <= j
  }

  lemma {:induction false} MinExists(s: set<int>)
    requires s != {}
    ensures exists k :: IsMin(s, k)
    decreases |s|
  {
    var x := Element(s);
    if s == {x} {
      assert IsMin(s, x);
    } else {
      MinExists(s - {x});
      var y :| IsMin(s - {x}, y);
      var m := if x < y then x else y;
      forall j | j in s ensures m <= j {
        if j != x {
          assert j in s - {x};
        }
      }
      assert IsMin(s, m);
    }
  }

  /**
   * The hole indices of a score record in ascending order, the order in which
   * `Object.values` visits the non-negative indices the game screen records.
   * The total does not depend on the order (`SumOverSplit`).
   */
  function SortedKeys(s: set<int>): seq<int>
    decreases |s|
  {
    if s == {} then []
    else
      MinExists(s);
      var k :| IsMin(s, k);
      [k] + SortedKeys(s - {k})
  }

  /** The key list holds every key once, in strictly ascending order. */
  lemma {:induction false} SortedKeysAscending(s: set<int>)
    ensures var r := SortedKeys(s);
      && |r| == |s|
      && (forall i :: 0 <= i < |r| ==> r[i] in s)
      && (forall k :: k in s ==> k in r)
      && (forall i, j :: 0 <= i < j < |r| ==> r[i] < r[j])
    decreases |s|
  {
    if s != {} {
      MinExists(s);
      var k :| IsMin(s, k);
      SortedKeysHead(s, k);
      SortedKeysAscending(s - {k});
    }
  }

  /** `hole[playerId] || 0`: a missing entry counts as 0. */
  function ScoreOf(hole: HoleScores, playerId: int): int {
    if playerId in hole then hole[playerId] else 0
  }

  /** A player's score on hole `h`, 0 when the hole has no record. */
  function HoleScore(scores: map<int, HoleScores>, h: int, playerId: int): int {
    if h in scores then ScoreOf(scores[h], playerId) else 0
  }

  function SumOver(scores: map<int, HoleScores>, holes: seq<int>, playerId: int): int
    decreases |holes|
  {
    if holes == [] then 0 else HoleScore(scores, holes[0], playerId) + SumOver(scores, holes[1..], playerId)
  }

  /** One player's total over every recorded hole. */
  function Total(scores: map<int, HoleScores>, playerId: int): int {
    SumOver(scores, SortedKeys(scores.Keys), playerId)
  }

  /** `players.map(...)`: one entry per roster player, in roster order. */
  function Entries(players: seq<Player>, scores: map<int, HoleScores>): (r: seq<Entry>)
    ensures |r| == |players|
    ensures forall i :: 0 <= i < |players| ==> r[i] == Entry(players[i].name, Total(scores, players[i].id))
  {
    seq(|players|, i requires 0 <= i < |players| => Entry(players[i].name, Total(scores, players[i].id)))
  }

  predicate SortedByTotal(s: seq<Entry>) {
    forall i, j :: 0 <= i < j < |s| ==> s[i].total <= s[j].total
  }

  /** Places `e` after every entry whose total is not larger than its own. */
  function Insert(sorted: seq<Entry>, e: Entry): seq<Entry>
    decreases |sorted|
  {
    if sorted == [] || sorted[|sorted| - 1].total <= e.total then sorted + [e]
    else Insert(sorted[..|sorted| - 1], e) + [sorted[|sorted| - 1]]
  }

  /** `sort((a, b) => a.total - b.total)`, which is stable. */
  function SortByTotal(s: seq<Entry>): seq<Entry>
    decreases |s|
  {
    if s == [] then [] else Insert(SortByTotal(s[..|s| - 1]), s[|s| - 1])
  }

  /** `totalScores`, computed from the context roster and the session's scores. */
  function FinalLeaderboard(players: seq<Player>, scores: map<int, HoleScores>): seq<Entry> {
    SortByTotal(Entries(players, scores))
  }

  // ---------------------------------------------------------------------
  // Totals.
  // ---------------------------------------------------------------------

  /** With no hole recorded, every total is 0. */
  lemma TotalWithoutScores(playerId: int)
    ensures Total(map[], playerId) == 0
  {
  }

  lemma {:induction false} SumOverFrame(a: map<int, HoleScores>, b: map<int, HoleScores>, holes: seq<int>, playerId: int)
    requires forall i :: 0 <= i < |holes| ==> HoleScore(a, holes[i], playerId) == HoleScore(b, holes[i], playerId)
    ensures SumOver(a, holes, playerId) == SumOver(b, holes, playerId)
    decreases |holes|
  {
    if holes != [] {
      SumOverFrame(a, b, holes[1..], playerId);
    }
  }

  /** The ascending key list starts with the smallest key. */
  lemma SortedKeysHead(s: set<int>, m: int)
    requires IsMin(s, m)
    ensures SortedKeys(s) == [m] + SortedKeys(s - {m})
  {
  }

  lemma SumOverCons(scores: map<int, HoleScores>, m: int, rest: seq<int>, playerId: int)
    ensures SumOver(scores, [m] + rest, playerId) == HoleScore(scores, m, playerId) + SumOver(scores, rest, playerId)
  {
    assert ([m] + rest)[1..] == rest;
  }

  /** The sum over the holes of `s` is the hole `k` plus the sum over the others. */
  lemma {:induction false} SumOverSplit(scores: map<int, HoleScores>, s: set<int>, k: int, playerId: int)
    requires k in s
    ensures SumOver(scores, SortedKeys(s), playerId)
         == HoleScore(scores, k, playerId) + SumOver(scores, SortedKeys(s - {k}), playerId)
    decreases |s|
  {
    MinExists(s);
    var m :| IsMin(s, m);
    SortedKeysHead(s, m);
    SumOverCons(scores, m, SortedKeys(s - {m}), playerId);
    if m != k {
      SumOverSplit(scores, s - {m}, k, playerId);
      assert s - {m} - {k} == s - {k} - {m};
      assert IsMin(s - {k}, m);
      SortedKeysHead(s - {k}, m);
      SumOverCons(scores, m, SortedKeys(s - {k} - {m}), playerId);
    }
  }

  /**
   * Recording hole `h` changes a total by the new score minus the one it
   * overwrites: re-recording a hole replaces its score instead of adding to it.
   */
  lemma TotalAfterRecording(scores: map<int, HoleScores>, h: int, hole: HoleScores, playerId: int)
    ensures Total(scores[h := hole], playerId)
         == Total(scores, playerId) - (if h in scores then ScoreOf(scores[h], playerId) else 0)
            + ScoreOf(hole, playerId)
  {
    var after := scores[h := hole];
    SumOverSplit(after, after.Keys, h, playerId);
    var rest := after.Keys - {h};
    assert rest == scores.Keys - {h};
    SortedKeysAscending(rest);
    SumOverFrame(after, scores, SortedKeys(rest), playerId);
    if h in scores {
      SumOverSplit(scores, scores.Keys, h, playerId);
    } else {
      assert rest == scores.Keys;
    }
  }

  // ---------------------------------------------------------------------
  // The sort.
  // ---------------------------------------------------------------------

  lemma {:induction false} InsertPermutes(sorted: seq<Entry>, e: Entry)
    ensures multiset(Insert(sorted, e)) == multiset(sorted) + multiset{e}
    decreases |sorted|
  {
    if !(sorted == [] || sorted[|sorted| - 1].total <= e.total) {
      var init, last := sorted[..|sorted| - 1], sorted[|sorted| - 1];
      InsertPermutes(init, e);
      assert sorted == init + [last];
    }
  }

  predicate AllAtMost(s: seq<Entry>, bound: int) {
    forall i :: 0 <= i < |s| ==> s[i].total <= bound
  }

  lemma {:induction false} InsertAtMost(sorted: seq<Entry>, e: Entry, bound: int)
    requires AllAtMost(sorted, bound) && e.total <= bound
    ensures AllAtMost(Insert(sorted, e), bound)
    decreases |sorted|
  {
    if !(sorted == [] || sorted[|sorted| - 1].total <= e.total) {
      InsertAtMost(sorted[..|sorted| - 1], e, bound);
    }
  }

  lemma SortedSnoc(s: seq<Entry>, e: Entry)
    requires SortedByTotal(s) && AllAtMost(s, e.total)
    ensures SortedByTotal(s + [e])
  {
  }

  lemma {:induction false} InsertSorted(sorted: seq<Entry>, e: Entry)
    requires SortedByTotal(sorted)
    ensures SortedByTotal(Insert(sorted, e))
    decreases |sorted|
  {
    if sorted == [] || sorted[|sorted| - 1].total <= e.total {
      SortedSnoc(sorted, e);
    } else {
      var init, last := sorted[..|sorted| - 1], sorted[|sorted| - 1];
      InsertSorted(init, e);
      InsertAtMost(init, e, last.total);
      SortedSnoc(Insert(init, e), last);
    }
  }

  function HasTotal(t: int): Entry -> bool {
    (e: Entry) => e.total == t
  }

  /** Inserting keeps the entries of each total in the order they came. */
  lemma {:induction false} InsertStable(sorted: seq<Entry>, e: Entry, t: int)
    ensures Filter(Insert(sorted, e), HasTotal(t)) == Filter(sorted, HasTotal(t)) + Filter([e], HasTotal(t))
    decreases |sorted|
  {
    if sorted == [] || sorted[|sorted| - 1].total <= e.total {
      FilterConcat(sorted, [e], HasTotal(t));
    } else {
      var init, last := sorted[..|sorted| - 1], sorted[|sorted| - 1];
      InsertStable(init, e, t);
      FilterConcat(Insert(init, e), [last], HasTotal(t));
      FilterConcat(init, [last], HasTotal(t));
      assert sorted == init + [last];
    }
  }

  /** The sort is ascending by total. */
  lemma {:induction false} SortSorted(s: seq<Entry>)
    ensures SortedByTotal(SortByTotal(s))
    decreases |s|
  {
    if s != [] {
      SortSorted(s[..|s| - 1]);
      InsertSorted(SortByTotal(s[..|s| - 1]), s[|s| - 1]);
    }
  }

  /** The sort rearranges the entries and nothing else. */
  lemma {:induction false} SortPermutes(s: seq<Entry>)
    ensures multiset(SortByTotal(s)) == multiset(s)
    ensures |SortByTotal(s)| == |s|
    decreases |s|
  {
    if s != [] {
      SortPermutes(s[..|s| - 1]);
      InsertPermutes(SortByTotal(s[..|s| - 1]), s[|s| - 1]);
      assert s == s[..|s| - 1] + [s[|s| - 1]];
    }
  }

  /** Entries with equal totals keep their relative order. */
  lemma {:induction false} SortStable(s: seq<Entry>, t: int)
    ensures Filter(SortByTotal(s), HasTotal(t)) == Filter(s, HasTotal(t))
    decreases |s|
  {
    if s != [] {
      var init, last := s[..|s| - 1], s[|s| - 1];
      var f := HasTotal(t);
      assert SortByTotal(s) == Insert(SortByTotal(init), last);
      calc {
        Filter(SortByTotal(s), f);
        { InsertStable(SortByTotal(init), last, t); }
        Filter(SortByTotal(init), f) + Filter([last], f);
        { SortStable(init, t); }
        Filter(init, f) + Filter([last], f);
        { FilterConcat(init, [last], f); }
        Filter(init + [last], f);
        { assert s == init + [last]; }
        Filter(s, f);
      }
    }
  }

  /**
   * The leaderboard lists every roster player's entry exactly once, ascending
   * by total, players with equal totals in roster order.
   */
  lemma LeaderboardOrdered(players: seq<Player>, scores: map<int, HoleScores>)
    ensures var lb := FinalLeaderboard(players, scores);
      && |lb| == |players|
      && multiset(lb) == multiset(Entries(players, scores))
      && SortedByTotal(lb)
      && forall t :: Filter(lb, HasTotal(t)) == Filter(Entries(players, scores), HasTotal(t))
  {
    SortPermutes(Entries(players, scores));
    SortSorted(Entries(players, scores));
    forall t ensures Filter(FinalLeaderboard(players, scores), HasTotal(t)) == Filter(Entries(players, scores), HasTotal(t)) {
      SortStable(Entries(players, scores), t);
    }
  }

  /** Right after `startGame` no hole is recorded, and every player stands at 0. */
  lemma LeaderboardWithoutScores(players: seq<Player>)
    ensures var lb := FinalLeaderboard(players, map[]);
      |lb| == |players| && forall i :: 0 <= i < |lb| ==> lb[i].total == 0
  {
    var es := Entries(players, map[]);
    SortPermutes(es);
    forall i | 0 <= i < |FinalLeaderboard(players, map[])| ensures FinalLeaderboard(players, map[])[i].total == 0 {
      var e := FinalLeaderboard(players, map[])[i];
      assert e in multiset(es);
    }
  }

  // ---------------------------------------------------------------------
  // A whole round.
  // ---------------------------------------------------------------------

  /**
   * Two players on a three-hole course have the per-player maps 4/5, 3/3 and
   * 6/2 passed straight to `recordScore` (the game screen would record one
   * value for everyone), advancing after the first two holes: the game ends
   * on its last hole, and
   * P2 with 10 sips leads P1 with 13.
   */
  lemma ThreeHoleRound(course: Course)
    requires course.holes == 3
    ensures var players := [Player(1, "P1"), Player(2, "P2")];
      var ops := [RecordOp(0, map[1 := 4, 2 := 5]), AdvanceOp, RecordOp(1, map[1 := 3, 2 := 3]),
                  AdvanceOp, RecordOp(2, map[1 := 6, 2 := 2])];
      var slot := Run(Some(Started(course, players)), ops);
      && slot.Some? && slot.value.currentHole == 2 && !CanAdvance(slot.value)
      && FinalLeaderboard(players, slot.value.scores) == [Entry("P2", 10), Entry("P1", 13)]
  {
    var players := [Player(1, "P1"), Player(2, "P2")];
    var h0, h1, h2 := map[1 := 4, 2 := 5], map[1 := 3, 2 := 3], map[1 := 6, 2 := 2];
    var ops := [RecordOp(0, h0), AdvanceOp, RecordOp(1, h1), AdvanceOp, RecordOp(2, h2)];
    var g := Started(course, players);
    var s1 := Step(Some(g), ops[0]);
    var s2 := Step(s1, ops[1]);
    var s3 := Step(s2, ops[2]);
    var s4 := Step(s3, ops[3]);
    var s5 := Step(s4, ops[4]);
    assert Run(s5, ops[5..]) == s5;
    assert Run(s4, ops[4..]) == s5;
    assert Run(s3, ops[3..]) == s5;
    assert Run(s2, ops[2..]) == s5;
    assert Run(s1, ops[1..]) == s5;
    var scores := map[0 := h0, 1 := h1, 2 := h2];
    assert s5 == Some(g.(scores := scores, currentHole := 2));
    assert scores.Keys == {0, 1, 2};
    assert IsMin({0, 1, 2}, 0);
    SortedKeysHead({0, 1, 2}, 0);
    assert {0, 1, 2} - {0} == {1, 2};
    assert IsMin({1, 2}, 1);
    SortedKeysHead({1, 2}, 1);
    assert {1, 2} - {1} == {2};
    assert IsMin({2}, 2);
    SortedKeysHead({2}, 2);
    assert {2} - {2} == {};
    assert SortedKeys(scores.Keys) == [0, 1, 2];
    assert [0, 1, 2][1..] == [1, 2] && [1, 2][1..] == [2] && [2][1..] == [];
    assert Total(scores, 1) == 13;
    assert Total(scores, 2) == 10;
    var es := Entries(players, scores);
    assert es == [Entry("P1", 13), Entry("P2", 10)];
    assert es[..1] == [Entry("P1", 13)];
    assert es[..1][..0] == [];
    assert SortByTotal(es[..1]) == [Entry("P1", 13)];
    assert [Entry("P1", 13)][..0] == [];
  }
}
