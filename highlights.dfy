/**
 * The background of a grid cell (src/App.tsx:177): a score of exactly 0 and
 * a score of exactly -50 are each marked; every other value, and an unset
 * slot, is not.
 */
module Highlights {
  import opened Wrappers
  import opened ScoreText
  import opened Players

  /** `"#FFF176"`, `"#f06292"` and `"none"`. */
  datatype Highlight = Zero | Penalty | Plain

  const PenaltyScore: int := -50

  function HighlightOf(cell: Cell): (h: Highlight)
    ensures h == Zero <==> cell == Some(0)
    ensures h == Penalty <==> cell == Some(PenaltyScore)
    ensures h == Plain <==> cell.None? || (cell.value != 0 && cell.value != PenaltyScore)
  {
    if cell == Some(0) then Zero
    else if cell == Some(PenaltyScore) then Penalty
    else Plain
  }

  /** Round `round` in column `column`: `players[j].score[i]`, `undefined` past the end of the row. */
  function CellHighlight(players: seq<Player>, column: nat, round: nat): (h: Highlight)
    requires column < |players|
    ensures round < |players[column].score| ==> h == HighlightOf(players[column].score[round])
    ensures round >= |players[column].score| ==> h == Plain
  {
    var row := players[column].score;
    HighlightOf(if round < |row| then row[round] else None)
  }

  /** A new game shows no marked cell. */
  lemma NewGameUnmarked(playerList: seq<string>, gameNums: nat, column: nat, round: nat)
    requires column < |playerList|
    ensures column < |NewPlayers(playerList, gameNums)|
    ensures CellHighlight(NewPlayers(playerList, gameNums), column, round) == Plain
  {
  }

  /**
   * After an edit the edited cell is marked by the stored value alone: text
   * that is not a nonzero number marks it as a zero.
   */
  lemma EditedCellMark(players: seq<Player>, column: nat, round: nat, text: string)
    requires column < |players| && round < |players[column].score|
    ensures var h := CellHighlight(EditScore(players, column, round, text), column, round);
            (h == Zero <==> CellValue(text) == 0) &&
            (h == Penalty <==> Parse(text) == Some(PenaltyScore)) &&
            (Parse(text).None? ==> h == Zero)
  {
  }

  /** An edit changes the mark of no other cell. */
  lemma EditKeepsOtherMarks(players: seq<Player>, playerIndex: int, gameIndex: int, text: string,
                            column: nat, round: nat)
    requires column < |players|
    requires column != playerIndex || round != gameIndex
    ensures CellHighlight(EditScore(players, playerIndex, gameIndex, text), column, round) ==
            CellHighlight(players, column, round)
  {
  }
}
