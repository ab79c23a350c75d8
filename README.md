# react-scoreboard: the scoring model in Dafny

A model of the score-keeping logic of the scoreboard component
(`src/App.tsx`), a one-screen web app for a game scored round by round. In the
setup phase the user fills in a round count and a list of player names; "start"
builds one `Player` per name with one unset score slot per round and a total of
0. In the playing phase each typed score replaces one slot of the table, and
the player's total is recomputed from the whole row. A leaderboard panel shows
the players sorted by ascending total (lowest is best), each below the leader
with the distance to the leader's total, and grid cells holding exactly 0 or
exactly -50 are highlighted. A confirmed reset returns to the setup phase.

Files, one Dafny module each:

- `wrappers.dfy` (`Wrappers`): `Option`, for an unset slot and a failed parse.
- `score_text.dfy` (`ScoreText`): `Number(text) || 0` on decimal integer text,
  and the text a stored score is shown with; the two round-trip.
- `players.dfy` (`Players`): the `Player` record, the total, the table a new
  game starts with, and the score edit, with the totals invariant, the frame
  and shape properties, last-write-wins and commutation of edits.
- `leaderboard.dfy` (`Leaderboard`): the sorted copy as a stable insertion sort
  (sorted, a permutation, stable, and unique with those properties), the
  leader's total and the panel's lines with their gaps.
- `highlights.dfy` (`Highlights`): the cell highlight rule.
- `app.dfy` (`ScoreboardApp`): the component as a class `App` with the fields
  `gameStart`, `players`, `playerList` and `gameNums`, its handlers as
  methods that keep the object invariant `Valid()`, and a worked game.

Behaviour of `src/App.tsx` worth knowing:

- a confirmed reset only sets `gameStart` to false; the table and the form
  values stay in memory (only the stored copy is cleared, which is outside
  this model);
- the add button always appends the new empty slot at the end of the list;
- slot 0 never has a remove button, whatever the number of slots, so the
  first name slot can never be removed and the list is never empty;
- the gap is computed as `(leader.total - player.total) * -1`, that is
  `player.total - leader.total`, which is never negative.

## Model

| member | source | states |
|---|---|---|
| `ScoreText.Parse` | src/App.tsx:115 | `Number(newScore)` on decimal integer text, `None` standing for NaN: only nonempty text parses, a negative result comes from a leading '-', and plain digits read as their decimal value; its partner is `Show`, which it inverts |
| `ScoreText.Show` | src/App.tsx:178 | the text a stored score is displayed with parses back to exactly that score |
| `ScoreText.ShowNatRoundTrip` | src/App.tsx:178 | the decimal digits of a natural number read back as that number |
| `ScoreText.CellText` | src/App.tsx:178 | an input cell shows the empty text exactly when its slot is unset |
| `ScoreText.CellValue` | src/App.tsx:115 | the stored value is nonzero only when the text parses to that value; text that is not a number stores 0, never an unset slot |
| `ScoreText.CellTextRoundTrip` | src/App.tsx:115 | retyping the text a cell shows stores the value it showed; an unset cell's empty text stores 0 |
| `ScoreText.ParseSamples` | src/App.tsx:115 | helper of `WalkthroughTable`: the texts "10", "0", "-50" and "5" of the walkthrough game read as the numbers they spell |
| `Players.OrZero` | src/App.tsx:117 | `score`, or 0 when it is falsy: an unset slot counts as 0, a set slot as its value |
| `Players.Total` | src/App.tsx:117 | the left fold of `reduce` from 0, adding each slot with an unset one counted as 0; a row with no set slot sums to 0; its further properties are `TotalUnset`, `TotalUpdate` and the totals invariant `EditKeepsConsistent` |
| `Players.Unset` | src/App.tsx:91 | `Array(n).fill(undefined)` has n slots, all unset |
| `Players.NewPlayers` | src/App.tsx:88-92 | one player per name slot, same order and name, each with `gameNums` unset slots and total 0, and every total consistent |
| `Players.TotalUnset` | src/App.tsx:91 | a row of unset slots sums to 0, so the initial total 0 is the row's sum |
| `Players.TotalOfThree` | src/App.tsx:117 | helper of `WalkthroughTable`: the sum of a three-slot row, as the walkthrough game's rows have |
| `Players.TotalUpdate` | src/App.tsx:117 | replacing one slot changes the sum by the new value minus the old (unset counts as 0) |
| `Players.EditPlayer` | src/App.tsx:114-124 | the edited row keeps its name and length, changes only the edited slot (and nothing when the round is out of range) and has a total equal to its sum |
| `Players.EditScore` | src/App.tsx:113-126 | the table keeps its length; the edited row is rewritten as above and every other row is returned unchanged |
| `Players.EditKeepsConsistent` | src/App.tsx:117 | if every total equals its row's sum before an edit, the same holds after it |
| `Players.EditKeepsShape` | src/App.tsx:113-126 | an edit keeps one row per name slot, the names, and each row's length |
| `Players.EditTotalDelta` | src/App.tsx:115-117 | recomputing the total from scratch equals the old total minus the old slot value plus the new one |
| `Players.EditedSlotIsSet` | src/App.tsx:115-116 | after an edit the slot is always set, and set to 0 when the text is not a nonzero number |
| `Players.EditOverwrite` | src/App.tsx:113-126 | two edits to the same slot leave the table as the second alone does |
| `Players.EditsCommute` | src/App.tsx:113-126 | edits to two different slots give the same table in either order |
| `Players.RetypeShownText` | src/App.tsx:113-126 | re-entering a set slot's shown text changes nothing; re-entering an unset slot's empty text sets it to 0 and keeps the total |
| `Leaderboard.Insert` | src/App.tsx:150 | inserting adds exactly one entry: the result is the old entries plus the new one as a multiset |
| `Leaderboard.InsertSorted` | src/App.tsx:150 | inserting into a list sorted by ascending total keeps it sorted |
| `Leaderboard.SortByTotal` | src/App.tsx:148-150 | the sorted copy has the players' length, is non-decreasing by total and is a permutation of the players |
| `Leaderboard.InsertWithTotal` | src/App.tsx:150 | an inserted player goes in front of every entry with the same total |
| `Leaderboard.SortIsStable` | src/App.tsx:148-150 | for every total, the players with that total appear in the sorted copy in their table order |
| `Leaderboard.SortedAndStableIsUnique` | src/App.tsx:148-150 | any ordering that is sorted by total and keeps the table order among ties is the sorted copy |
| `Leaderboard.LeaderTotal` | src/App.tsx:156 | the leader's total is the smallest total in the table and belongs to some player |
| `Leaderboard.Gap` | src/App.tsx:156 | `(sorted[0].total - player.total) * -1`: no gap at position 0, elsewhere the player's total minus the leader's; `Standings` states that on the sorted copy it is never negative |
| `Leaderboard.Standings` | src/App.tsx:151-157 | one line per player, ranks 1..n, names and totals from the sorted copy in non-decreasing order, no gap at rank 1 and at every later rank a gap equal to total minus the leader's total, never negative |
| `Highlights.HighlightOf` | src/App.tsx:177 | a score of exactly 0 is marked as a zero, exactly -50 as a penalty, and anything else, unset included, is not marked |
| `Highlights.CellHighlight` | src/App.tsx:177 | the cell `players[j].score[i]` is marked by `HighlightOf` of its slot, and a round past the end of the row (`undefined`) is not marked |
| `Highlights.NewGameUnmarked` | src/App.tsx:177 | no cell of a new game is marked |
| `Highlights.EditedCellMark` | src/App.tsx:177 | after an edit the cell is marked as a zero exactly when the stored value is 0 (text that is not a number included) and as a penalty exactly when the text reads -50 |
| `Highlights.EditKeepsOtherMarks` | src/App.tsx:177 | an edit changes the mark of no other cell |
| `ScoreboardApp.App.constructor` | src/App.tsx:54-62 | setup phase, no players, one empty name slot, 10 rounds |
| `ScoreboardApp.App.AppendPlayer` | src/App.tsx:80-85 | the name list gains one empty slot at its end (the add button is rendered only beside the last slot, and `append` adds at the end regardless of `index`) |
| `ScoreboardApp.App.RemovePlayer` | src/App.tsx:207-211 | a slot other than 0 is removed and the rest keep their order; slot 0 or a missing slot changes nothing, so the list is never empty |
| `ScoreboardApp.App.SetPlayerName` | src/App.tsx:202-206 | typing in a name slot replaces that slot's name only |
| `ScoreboardApp.App.SetGameNums` | src/App.tsx:195 | typing in the round-count field sets the round count |
| `ScoreboardApp.App.StartGame` | src/App.tsx:88-100 | the phase becomes playing and the table becomes the new players built from the form; the form is unchanged and the invariant holds |
| `ScoreboardApp.App.ResetGame` | src/App.tsx:103-108 | a declined reset changes nothing; a confirmed one only sets the phase to setup, keeping the table and the form |
| `ScoreboardApp.App.EnterScore` | src/App.tsx:111-140 | the table becomes the edited table and nothing else changes; totals stay consistent and, in play, the table keeps its shape |
| `ScoreboardApp.App.Panel` | src/App.tsx:148-158 | the panel has one line per player and is computed without changing the table |
| `ScoreboardApp.SetUpWalkthrough` | src/App.tsx:195-216 | filling in the form through the handlers gives the names Ann and Bo and 3 rounds |
| `ScoreboardApp.WalkthroughTable` | src/App.tsx:111-140 | after Ann's 10, 0, -50 and Bo's 5, 5, 5 the totals are -40 and 15 |
| `ScoreboardApp.WalkthroughPanel` | src/App.tsx:148-158 | Ann leads with -40 and Bo, second, shows a gap of 55 |
| `ScoreboardApp.Walkthrough` | src/App.tsx:88-140 | the walkthrough game played through the handlers, then a declined and a confirmed reset, ends in the setup phase with the table `[Ann, Bo]` (totals -40 and 15) still in memory |

## Left out

- Persistence: `saveToLocalStorage`, `loadFromLocalStorage` and `clearLocalStorage` (src/App.tsx:16-40), the save after a start or a score edit (src/App.tsx:94-99, 128-136), the clear on a confirmed reset (src/App.tsx:105) and the restore on mount (src/App.tsx:65-72). They are browser storage and JSON text, with every error swallowed; nothing they do feeds back into the state modelled here except the restore, which replaces the state wholesale.
- The deferred focus move after adding a name slot (src/App.tsx:82-84): a user-interface effect with no data.
- Rendering: the JSX, the MUI components, the styled definitions and the React keys, and the internals of react-hook-form (`useForm`, `useFieldArray`, `Controller`, `watch`); the form's fields are modelled as plain fields of `App`.
- Number parsing: JavaScript's `Number(text)` returns an IEEE-754 double. `ScoreText.Parse` reads an optional sign followed by decimal digits and treats any other text as NaN; fractions, exponents, hexadecimal, surrounding white space and `Infinity` are not modelled, nor is floating-point rounding. Scores and totals are unbounded integers. (`Number("")` is 0 where `Parse("")` is "not a number"; the stored value is 0 either way.)
- The round count's type: the round-count text field stores a string, and `Array(gameNums)` of a string is a one-element array (src/App.tsx:91, 195). The model keeps `gameNums` a natural number. In the source, typing a round count such as "3" stores the string "3", a start then builds one-slot rows, and every edit to round 2 or later is ignored by the `map` at src/App.tsx:116 although the grid renders every round; the walkthrough game played that way would end with totals 10 and 5. Only the untouched default of 10, a number, gives a slot for every round.
- The `currentGame: 1` field that a start adds to each player and an edit drops (src/App.tsx:91, 119-123): nothing reads it.
