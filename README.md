# PubGolf core in Dafny

PubGolf is a mobile app for pub crawls scored like golf. Each pub on a course
is a "hole", and a player's score on it is the number of sips taken, so lower
is better. This project models the logic behind the app's screens:

- **the shared state container** (`components/PubGolfContext.tsx`). It holds
  the list of courses, the sample pub catalog, the player roster and one
  nullable active game. Its operations are `createCourse`, `startGame`,
  `recordScore`, `advanceHole`, `endGame` and `setPlayers`.
- **the game screen** (`app/game.tsx`). Recording a score gives every rostered
  player the typed number of sips on the current hole, then moves on or marks
  the game complete. The score classifier names scores from "Hole in One!" to
  "Double Bogey". The final leaderboard sorts totals ascending.
- **the custom-course screen** (`app/manual-course.tsx`). It searches the
  catalog, adds and removes selected pubs, and saves a course of at least three
  pubs.
- **the auto-generate screen** (`app/auto-course.tsx`). It builds a course from
  the catalog pubs within a chosen distance, for a chosen hole count.
- **the player dialog** (`components/PlayerModal.tsx`). It adds trimmed names,
  removes players by id and saves the list.

The model has two layers:

- **Values.** The active-game slot is an `Option<GameState>`. Each container
  operation is a pure step function on it (`Started`, `Recorded`, `Advanced`),
  and `Run` applies a sequence of game-screen calls.
- **State.** The container (`PubGolfContext.Store`) and the three screens with
  their own state (`ManualCourse.ManualCourseScreen`, `Game.GameScreen`,
  `Roster.PlayerModal`) are classes. Their methods change their fields, and
  each method's postcondition ties the new state to the step functions.

Conventions:

- Distances are integer tenths of a kilometre and ratings integer tenths of a
  star. So `distance: 0.2` is `2`, `rating: 4.0` is `40`, and a slider setting
  of `km` kilometres admits pubs with `distance <= 10 * km`.
- Ids that the source takes from `Date.now()` are parameters.

The modules are:

| module | contents |
|---|---|
| `Wrappers` | `Option` |
| `Seqs` | `Array.prototype.filter` and subsequences |
| `Text` | ASCII `toLowerCase`, `includes` and `trim` |
| `Decimal` | number-to-text as in a template literal, and `parseInt` on digit strings |
| `PubGolfContext` | the container |
| `CourseMetadata` | the derived course fields both builders share |
| `Game` | the game screen |
| `Leaderboard` | the final leaderboard |
| `ManualCourse` | the custom-course screen |
| `AutoCourse` | the auto-generate screen |
| `Roster` | the player dialog |

## Model

| member | source | states |
|---|---|---|
| PubGolfContext.Store.constructor | components/PubGolfContext.tsx:54-67 | The container starts with no courses, the nine built-in pubs, no active game and the roster `[You (id 1)]`. The container invariant `Valid` (a running session's hole index lies in `0 .. max(0, holes - 1)`) holds from the start. |
| PubGolfContext.Store.CreateCourse | components/PubGolfContext.tsx:81-84 | The course gets the given id and is appended after the existing ones: one more course, earlier courses untouched, nothing else changed. `Valid` is kept. |
| PubGolfContext.Store.StartGame | components/PubGolfContext.tsx:86-93 | Replaces any session with the given course, the current roster, no scores, on hole 0. Nothing else changes. `Valid` holds afterwards, whatever the old session was. |
| PubGolfContext.Store.RecordScore | components/PubGolfContext.tsx:95-103 | The slot becomes `Recorded(old slot, hole, scores)`. Without a game nothing changes. `Valid` is kept. |
| PubGolfContext.Store.AdvanceHole | components/PubGolfContext.tsx:105-112 | The slot becomes `Advanced(old slot)`, so the hole moves on only below the last hole. `Valid` is kept. |
| PubGolfContext.Store.EndGame | components/PubGolfContext.tsx:114-116 | Empties the active-game slot and leaves everything else. `Valid` holds afterwards. |
| PubGolfContext.Store.SetPlayers | components/PubGolfContext.tsx:67 | Replaces the roster (the `setPlayers` setter, exposed at components/PubGolfContext.tsx:119). A running game keeps the roster it started with. `Valid` is kept. |
| PubGolfContext.Started | components/PubGolfContext.tsx:87-92 | No contract of its own: the session `startGame` creates. See PubGolfContext.StartedSession. |
| PubGolfContext.Recorded | components/PubGolfContext.tsx:95-103 | No contract of its own: the slot after `recordScore`. See PubGolfContext.RecordedEffect and PubGolfContext.RecordOverwrites. |
| PubGolfContext.Advanced | components/PubGolfContext.tsx:105-112 | No contract of its own: the slot after `advanceHole`. See PubGolfContext.AdvancedEffect and PubGolfContext.AdvanceAtLastHoleIsNoop. |
| PubGolfContext.Run | components/PubGolfContext.tsx:95-116 | No contract of its own: the slot after a sequence of game-screen calls. See PubGolfContext.RunKeepsHoleInRange, PubGolfContext.RunKeepsCourse and PubGolfContext.RunFromEmpty. |
| PubGolfContext.StartedSession | components/PubGolfContext.tsx:86-93 | A started session holds exactly the course and roster, no scores and hole 0. The hole index starts in range. |
| PubGolfContext.RecordedEffect | components/PubGolfContext.tsx:95-103 | Without a game, recording gives no game. With one, exactly the given hole is set to exactly the given map. The other holes, the course, the players and the current hole are unchanged. |
| PubGolfContext.RecordOverwrites | components/PubGolfContext.tsx:99 | Recording the same hole twice equals recording only the second map: scores are replaced, not accumulated. |
| PubGolfContext.AdvancedEffect | components/PubGolfContext.tsx:105-112 | The slot changes if and only if a game runs and `currentHole < holes - 1`. It then moves on by exactly one hole. |
| PubGolfContext.AdvanceAtLastHoleIsNoop | components/PubGolfContext.tsx:106 | On the last hole, advancing is a no-op, and so is advancing again. |
| PubGolfContext.StepKeepsHoleInRange | components/PubGolfContext.tsx:95-116 | Record, advance and end each preserve `0 <= currentHole <= max(0, holes - 1)`. |
| PubGolfContext.RunKeepsHoleInRange | components/PubGolfContext.tsx:95-116 | Any sequence of those calls preserves the hole-range invariant. |
| PubGolfContext.RunKeepsCourse | components/PubGolfContext.tsx:95-112 | While a game runs, no call changes its course or its roster. |
| PubGolfContext.RunFromEmpty | components/PubGolfContext.tsx:96-98 | Without a game, every sequence of calls leaves the slot empty. |
| PubGolfContext.MatchedCourseAlwaysHasPub | app/game.tsx:77 | If a course has as many holes as pubs, and at least one, then `course.pubs[currentHole]` exists after any sequence of calls. |
| CourseMetadata.Difficulty | app/manual-course.tsx:32 | "Easy" if and only if at most 6 holes, "Medium" if and only if 7 to 12, "Hard" if and only if more than 12. |
| Game.GameScreen.constructor | app/game.tsx:12-13 | The screen starts with empty input and the game not complete. |
| Game.GetScoreType | app/game.tsx:38-46 | No contract of its own: the label and colour of a score. See Game.NamedScores, Game.ScoreAboveSix, Game.ScoreTypeTotal and Game.ScoreLabelsDistinct. |
| Game.GameScreen.HandleRecordScore | app/game.tsx:22-36 | With empty input or no players, nothing changes. Otherwise: every context player's id maps to the parsed sips on the current hole, then the game advances as `advanceHole` would. The input is cleared, and the game is complete exactly when it was already complete or the hole was the last one. Courses, roster and catalog are untouched. |
| Game.BuildHoleScores | app/game.tsx:24-27 | The `forEach` loop produces `UniformScores`: exactly the roster's ids, each with the same value. |
| Game.UniformScores | app/game.tsx:24-27 | The map's keys are exactly the roster's ids, and every value is the given number. |
| Game.RecordThenAdvance | app/game.tsx:28-34 | After recording, the next hole index is `currentHole + 1` if `currentHole < holes - 1` and unchanged otherwise. The hole holds the same score for exactly the roster. Course and players are kept. |
| Game.NamedScores | app/game.tsx:38-44 | One to six sips are "Hole in One!", "Eagle", "Birdie", "Par", "Bogey" and "Double Bogey", in the listed colours. |
| Game.ScoreAboveSix | app/game.tsx:45 | Above six sips the label is "+" followed by the canonical decimal digits of `sips - 4`, which read back to `sips - 4`, in red. |
| Game.ScoreTenIsPlusSix | app/game.tsx:45 | Ten sips are labelled "+6". |
| Game.ScoreTypeTotal | app/game.tsx:38-46 | Every integer, zero and negatives included, gets a non-empty label. The colour is one of the seven listed, and it is red exactly outside 1 to 6. |
| Game.ScoreLabelsDistinct | app/game.tsx:38-46 | Two different sip counts never get the same label. |
| Leaderboard.SortedKeysAscending | app/game.tsx:51 | The hole order lists every recorded hole once, strictly ascending. For the non-negative hole indices the game screen records, this is the order `Object.values` visits; the total does not depend on the order (Leaderboard.SumOverSplit). |
| Leaderboard.Total | app/game.tsx:51 | No contract of its own: a player's sum over the recorded holes, a missing score counting 0. See Leaderboard.TotalWithoutScores, Leaderboard.SumOverSplit and Leaderboard.TotalAfterRecording. |
| Leaderboard.Insert | app/game.tsx:52 | No contract of its own: one step of the stable sort. See Leaderboard.InsertPermutes, Leaderboard.InsertSorted and Leaderboard.InsertStable. |
| Leaderboard.SortByTotal | app/game.tsx:52 | No contract of its own: `sort((a, b) => a.total - b.total)`. See Leaderboard.SortSorted, Leaderboard.SortPermutes and Leaderboard.SortStable. |
| Leaderboard.FinalLeaderboard | app/game.tsx:49-52 | No contract of its own: `totalScores`. See Leaderboard.LeaderboardOrdered, Leaderboard.LeaderboardWithoutScores and Leaderboard.ThreeHoleRound. |
| Leaderboard.Entries | app/game.tsx:49-51 | One entry per roster player, in roster order: the player's name and total. |
| Leaderboard.TotalWithoutScores | app/game.tsx:51 | With no hole recorded, a total is 0. |
| Leaderboard.SumOverSplit | app/game.tsx:51 | A total over a set of holes is one hole's score plus the total over the rest, so the summation order does not matter. |
| Leaderboard.TotalAfterRecording | app/game.tsx:51 | After `recordScore(h, m)`, a player's total is the old total minus the overwritten score on `h`, plus the new one. A missing score counts as 0. |
| Leaderboard.InsertPermutes | app/game.tsx:52 | Inserting adds exactly the one entry to the multiset. |
| Leaderboard.InsertSorted | app/game.tsx:52 | Inserting into an ascending list keeps it ascending. |
| Leaderboard.InsertStable | app/game.tsx:52 | Inserting keeps the order of the entries of every total. |
| Leaderboard.SortSorted | app/game.tsx:52 | The sort's result is ascending by total. |
| Leaderboard.SortPermutes | app/game.tsx:52 | The sort's result is a permutation of its input. |
| Leaderboard.SortStable | app/game.tsx:52 | Entries with equal totals keep their input order. |
| Leaderboard.LeaderboardOrdered | app/game.tsx:49-52 | The leaderboard is a permutation of the roster's entries, ascending by total, and ties stay in roster order. |
| Leaderboard.LeaderboardWithoutScores | app/game.tsx:49-52 | With no scores, every roster player is listed with total 0. |
| Leaderboard.ThreeHoleRound | components/PubGolfContext.tsx:95-112 | With app/game.tsx:49-52 for the leaderboard. Two players play a three-hole course, with the per-player maps 4/5, 3/3 and 6/2 passed straight to `recordScore` (the game screen itself records one value for everyone), advancing after the first two holes. The game ends on hole index 2, and the leaderboard is `[P2 10, P1 13]`. |
| ManualCourse.FilteredPubs | app/manual-course.tsx:16-19 | No contract of its own: `filteredPubs`. See ManualCourse.FilteredPubsExactly and ManualCourse.EmptySearchListsCatalog. |
| ManualCourse.FilteredPubsExactly | app/manual-course.tsx:16-19 | The search lists a catalog pub if and only if its lower-cased name contains the lower-cased term and its id is not selected. The list keeps catalog order, and each such pub is listed as often as it occurs in the catalog. |
| ManualCourse.EmptySearchListsCatalog | app/manual-course.tsx:16-19 | With an empty term and nothing selected, the whole catalog is listed. |
| ManualCourse.WithoutPub | app/manual-course.tsx:22 | No contract of its own: the selection after `removePub`. See ManualCourse.WithoutPubEffect. |
| ManualCourse.WithoutPubEffect | app/manual-course.tsx:22 | Removing an id drops every pub with it and keeps all others in order, each as often as before. Removing twice is the same as once, and an absent id changes nothing. |
| ManualCourse.MaxDistance | app/manual-course.tsx:30 | The result is at least every selected distance and equal to one of them. |
| ManualCourse.SavedDraft | app/manual-course.tsx:24-34 | No contract of its own: what `saveCourse` hands to `createCourse`, or nothing. See ManualCourse.SavedDraftShape. |
| ManualCourse.SavedDraftShape | app/manual-course.tsx:24-34 | A course is saved if and only if the name is non-empty and at least 3 pubs are selected. It then has the name, the selection in order with one hole per pub, the largest selected distance, 20 minutes per hole, the threshold difficulty and rating 4.0. |
| ManualCourse.SavedCourseAlwaysHasPub | app/manual-course.tsx:28-29 | A saved course played from its start never reaches a hole without a pub. |
| ManualCourse.ManualCourseScreen.constructor | app/manual-course.tsx:12-14 | The screen starts with empty name, selection and search. |
| ManualCourse.ManualCourseScreen.Listed | app/manual-course.tsx:16-19 | No contract of its own: the screen's `filteredPubs`, from its own search and selection and the container's catalog. |
| ManualCourse.ManualCourseScreen.AddPub | app/manual-course.tsx:21 | Appends the pub after the unchanged selection. Afterwards the search lists no pub with that id. |
| ManualCourse.ManualCourseScreen.RemovePub | app/manual-course.tsx:22 | The selection becomes `WithoutPub(old selection, id)`. |
| ManualCourse.ManualCourseScreen.SaveCourse | app/manual-course.tsx:24-37 | Appends the saved draft with the given id to the container's courses when the guard holds, and changes nothing otherwise. |
| AutoCourse.DefaultSettingsValid | app/auto-course.tsx:13-14 | The starting setting, 9 holes and 2 km, is one the screen offers. |
| AutoCourse.OfferedDifficulties | app/auto-course.tsx:43 | The offered 6, 9 and 12 holes are "Easy", "Medium" and "Medium". |
| AutoCourse.GeneratedCourse | app/auto-course.tsx:21-33 | No contract of its own: the course `generateCourse` builds, as written. See AutoCourse.GeneratedPubsWithinDistance, AutoCourse.GeneratedPubsArePrefix, AutoCourse.GeneratedCourseFields and AutoCourse.GeneratedCourseRunsOutOfPubs. |
| AutoCourse.GeneratedPubsWithinDistance | app/auto-course.tsx:21-22 | Every generated pub is a catalog pub within the chosen distance. |
| AutoCourse.GeneratedPubsArePrefix | app/auto-course.tsx:21-23 | The pubs are the first `min(holes, qualifying)` qualifying pubs, a subsequence of the catalog. |
| AutoCourse.GeneratedCourseFields | app/auto-course.tsx:24-33 | The fields: the given id, "Auto Course (N)", the chosen hole count (at least the number of pubs), the chosen distance, 20 minutes per hole, the threshold difficulty, rating 4.0. |
| AutoCourse.AutoNameOfNine | app/auto-course.tsx:26 | Nine holes give the name "Auto Course (9)". |
| AutoCourse.GeneratedCourseRunsOutOfPubs | app/auto-course.tsx:21-29 | Six holes within 1 km of the initial catalog give a 6-hole course with 5 pubs. Five advances reach hole index 5, past the last pub. |
| AutoCourse.QualifyingWithinOneKm | app/auto-course.tsx:22 | Exactly the first five initial pubs lie within 1 km. |
| AutoCourse.MatchedGeneratedCourse | app/auto-course.tsx:21-33 | No contract of its own: the corrected generator, with one hole per generated pub. See AutoCourse.MatchedGeneratedCourseAlwaysHasPub. |
| AutoCourse.MatchedGeneratedCourseAlwaysHasPub | app/auto-course.tsx:21-29 | The corrected generator gives no course if and only if no pub qualifies (or 0 holes are asked for). Otherwise it keeps the same pubs with one hole per pub, and the game never passes the last pub. |
| Roster.WithoutPlayer | components/PlayerModal.tsx:24 | No contract of its own: the list after `removePlayer`. See Roster.WithoutPlayerEffect. |
| Roster.WithoutPlayerEffect | components/PlayerModal.tsx:23-25 | Removing an id leaves no player with it and keeps all others in order, each as often as before. Removing twice is the same as once, and an absent id changes nothing. |
| Roster.PlayerModal.constructor | components/PlayerModal.tsx:13-14 | The dialog starts from the given roster and an empty input. |
| Roster.PlayerModal.AddPlayer | components/PlayerModal.tsx:16-21 | A name that trims to empty changes nothing. Otherwise a player with the fresh id and the trimmed name is appended, and the input is cleared. |
| Roster.PlayerModal.RemovePlayer | components/PlayerModal.tsx:23-25 | The list becomes `WithoutPlayer(old list, id)` and the input is kept. |
| Roster.PlayerModal.HandleSave | components/PlayerModal.tsx:27-30 | The list handed to `onSave` is the edited list. |
| Roster.AddedNameIsTrimmed | components/PlayerModal.tsx:17-18 | An added name has no surrounding white space, occurs in the input, and trimming it again changes nothing. |
| Roster.BlankNameIgnored | components/PlayerModal.tsx:17 | An input of only white space trims to empty, so it is ignored. |
| Text.Trim | components/PlayerModal.tsx:17-18 | The input is white space, then the result, then white space. The result is empty if and only if the input is all white space, and otherwise starts and ends with a non-white-space character. |
| Text.TrimIdempotent | components/PlayerModal.tsx:18 | Trimming twice is the same as trimming once. |
| Text.Lower | app/manual-course.tsx:17 | Same length; each upper-case ASCII letter becomes lower case, and everything else is kept. |
| Text.IncludesIffOccurs | app/manual-course.tsx:17 | `includes` holds if and only if the term occurs at some index. |
| Seqs.Filter | app/manual-course.tsx:16-19 | Every kept element is from the input and passes the test. Every input element that passes is kept. |
| Seqs.FilterIsSubsequence | app/manual-course.tsx:16-19 | A filter's result keeps its input's order. |
| Seqs.FilterCount | app/manual-course.tsx:16-19 | A filter keeps each passing value exactly as often as it occurs and no other value. With Seqs.FilterIsSubsequence this determines the result. |
| Decimal.NatToString | app/game.tsx:45 | The text of a non-negative number is canonical digits (no leading zero), and it is "0" exactly for 0. |
| Decimal.DigitsValue | app/game.tsx:26 | No contract of its own: `parseInt` of a digit string. See Decimal.DigitsValueOfNatToString and Decimal.NatToStringOfDigitsValue. |
| Decimal.IntToString | app/game.tsx:45 | The text of a number starts with '-' if and only if it is negative, followed by canonical decimal digits whose value is exactly the number's magnitude. |
| Decimal.NatToStringOfDigitsValue | app/game.tsx:26 | Reading a canonical digit string and writing the number back gives the same string. |
| Decimal.DigitsValueOfNatToString | app/game.tsx:26 | Writing a number and reading it back gives the same number. |
| Decimal.IntToStringInjective | app/game.tsx:45 | Different numbers have different texts. |

## Left out

- `useEffect` data loading from `services/api.ts` (components/PubGolfContext.tsx:69-79). It is asynchronous I/O; `services/api.ts` is not part of this model. The container starts from its initial state.
- Pub `latitude` and `longitude` are only used by the map screen, which is not part of this model.
- React's state batching and re-rendering. Each handler reads the state as it was when the handler began. Each container call in `HandleRecordScore` acts on the slot the previous call left, which gives the same result, because `recordScore` does not change `currentHole`.
- Game.GameScreen.HandleRecordScore: requires the typed text to be a digit string (the input uses a numeric keyboard). `parseInt` is modelled on digit strings only. Text that would give `NaN` or a partial parse is not modelled, because scores are integers here.
- Game.GameScreen.HandleRecordScore: requires an active game. Without one the screen redirects home (app/game.tsx:15-18) and the handler is not reachable.
- The "Next Hole" button is disabled when the typed value is below 1 (app/game.tsx:108). That is a rendering guard, not part of the handler. So the handler records 0 as written.
- The `setTimeout` delay and the `isGenerating` flag of the auto-generate screen. They are timing; the model computes the course directly.
- `onClose`, `router.back()`, `router.replace()` and all rendering: navigation and display.
- Floating-point distances and ratings are integer tenths. Every constant in the source has one decimal place, so this is exact.
- Numbers are unbounded integers, while the source's sips, totals and ids are IEEE doubles. The model agrees with the source only while values stay below 2^53, where `parseInt` (app/game.tsx:26) and the sum at app/game.tsx:51 begin to round. Printing agrees below 10^21, where `${sips - 4}` (app/game.tsx:45) switches to exponent form such as "+1e+21".
- Decimal.DigitsValue: reads the empty string as 0, where `parseInt` gives `NaN`. The game screen only parses non-empty input (app/game.tsx:23).
- `toLowerCase` is modelled for ASCII letters only. Unicode case mapping is not modelled.
- The scorecard list and the score-type preview on the game screen are display only.
- AutoCourse.GeneratedCourse: the hole count is a `nat` from the settings. The screen only offers 6, 9 and 12 (`ValidSettings`).

## Findings

| source | as written | input that shows it | evidently intended | confidence | as-written member | corrected member |
|---|---|---|---|---|---|---|
| app/auto-course.tsx:21-29 | `holes` is set to the selected hole count even when fewer pubs qualify; the game screen then reads `course.pubs[currentHole]` (app/game.tsx:77) past the end of the pub list | 6 holes, 1 km, the initial catalog: 5 pubs qualify, the course has 6 holes, and after five holes the game is on hole index 5 with no pub | one hole per generated pub, as the custom-course screen does (`holes: selectedPubs.length`), and no course when no pub qualifies | not executed | AutoCourse.GeneratedCourseRunsOutOfPubs | AutoCourse.MatchedGeneratedCourseAlwaysHasPub |
