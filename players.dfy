/**
 * The score table: one `Player` per configured name, each with one score slot
 * per round and a running total (src/App.tsx:47-51), how a new game builds it
 * (src/App.tsx:91) and how a score edit rewrites it (src/App.tsx:113-126).
 */
module Players {
  import opened Wrappers
  import opened ScoreText

  /** A score slot is `None` until the user types into it (`undefined` in the source). */
  type Cell = Option<int>

  datatype Player = Player(name: string, score: seq<Cell>, total: int)

  /** `score || 0`: an unset slot counts as 0. */
  function OrZero(c: Cell): (v: int)
    ensures c.None? ==> v == 0
    ensures c.Some? ==> v == c.value
  {
    c.GetOr(0)
  }

  /** `score.reduce((sum, s) => sum + (s || 0), 0)`, a left fold. */
  function Total(score: seq<Cell>): (t: int)
    ensures (forall g :: 0 <= g < |score| ==> score[g].None?) ==> t == 0
  {
    if score == [] then 0 else Total(score[..|score| - 1]) + OrZero(score[|score| - 1])
  }

  /** The invariant the source keeps: a player's total is the sum of its slots. */
  predicate Consistent(p: Player) {
    p.total == Total(p.score)
  }

  predicate AllConsistent(players: seq<Player>) {
    forall i :: 0 <= i < |players| ==> Consistent(players[i])
  }

  /** The table matches the setup it was built from: names in order, one slot per round. */
  predicate Shape(players: seq<Player>, playerList: seq<string>, gameNums: nat) {
    |players| == |playerList| &&
    forall i :: 0 <= i < |players| ==> players[i].name == playerList[i] && |players[i].score| == gameNums
  }

  function Unset(n: nat): (s: seq<Cell>)
    ensures |s| == n && forall g :: 0 <= g < n ==> s[g].None?
  {
    seq(n, _ => None)
  }

  /**
   * The players a new game starts with: `Array(gameNums).fill(undefined)` and
   * a total of 0 for every name slot. (The source reads `gameNums` as the
   * text field's string; `Array` of a string is a one-element array. Here the
   * round count is a number.)
   */
  function NewPlayers(playerList: seq<string>, gameNums: nat): (players: seq<Player>)
    ensures Shape(players, playerList, gameNums)
    ensures forall i :: 0 <= i < |players| ==> players[i].total == 0 && players[i].score == Unset(gameNums)
    ensures AllConsistent(players)
  {
    TotalUnset(gameNums);
    seq(|playerList|, i requires 0 <= i < |playerList| => Player(playerList[i], Unset(gameNums), 0))
  }

  /**
   * One player's row after the text `text` is entered in round `gameIndex`:
   * the slot becomes `Number(text) || 0`, every other slot keeps its value, and
   * the total is recomputed from the whole row. A round index outside the row
   * leaves the slots alone, since only existing slots are mapped over.
   */
  function EditPlayer(p: Player, gameIndex: int, text: string): (q: Player)
    ensures q.name == p.name && |q.score| == |p.score|
    ensures 0 <= gameIndex < |p.score| ==> q.score == p.score[gameIndex := Some(CellValue(text))]
    ensures !(0 <= gameIndex < |p.score|) ==> q.score == p.score
    ensures Consistent(q)
  {
    var updated := seq(|p.score|, g requires 0 <= g < |p.score| =>
      if g == gameIndex then Some(CellValue(text)) else p.score[g]);
    Player(p.name, updated, Total(updated))
  }

  /**
   * The whole table after a score edit: row `playerIndex` is rewritten by
   * `EditPlayer`, every other row is returned as it was.
   */
  function EditScore(players: seq<Player>, playerIndex: int, gameIndex: int, text: string): (r: seq<Player>)
    ensures |r| == |players|
    ensures forall i :: 0 <= i < |players| && i != playerIndex ==> r[i] == players[i]
    ensures 0 <= playerIndex < |players| ==> r[playerIndex] == EditPlayer(players[playerIndex], gameIndex, text)
  {
    seq(|players|, i requires 0 <= i < |players| =>
      if i == playerIndex then EditPlayer(players[i], gameIndex, text) else players[i])
  }

  lemma {:induction false} TotalUnset(n: nat)
    ensures Total(Unset(n)) == 0
  {
    if n > 0 {
      assert Unset(n)[..n - 1] == Unset(n - 1);
      TotalUnset(n - 1);
    }
  }

  lemma TotalOfThree(a: Cell, b: Cell, c: Cell)
    ensures Total([a, b, c]) == OrZero(a) + OrZero(b) + OrZero(c)
  {
    assert [a][..0] == [];
    assert Total([a]) == OrZero(a);
    assert [a, b][..1] == [a];
    assert Total([a, b]) == OrZero(a) + OrZero(b);
    assert [a, b, c][..2] == [a, b];
  }

  /** Replacing one slot changes the sum by exactly the difference of the two values. */
  lemma {:induction false} TotalUpdate(score: seq<Cell>, g: nat, c: Cell)
    requires g < |score|
    ensures Total(score[g := c]) == Total(score) - OrZero(score[g]) + OrZero(c)
  {
    var n := |score|;
    var s' := score[g := c];
    if g < n - 1 {
      assert s'[..n - 1] == score[..n - 1][g := c];
      TotalUpdate(score[..n - 1], g, c);
    } else {
      assert s'[..n - 1] == score[..n - 1];
    }
  }

  /** An edit keeps every total equal to the sum of its row. */
  lemma EditKeepsConsistent(players: seq<Player>, playerIndex: int, gameIndex: int, text: string)
    requires AllConsistent(players)
    ensures AllConsistent(EditScore(players, playerIndex, gameIndex, text))
  {
  }

  /** An edit keeps the table's shape: same players, same names, same number of rounds. */
  lemma EditKeepsShape(players: seq<Player>, playerList: seq<string>, gameNums: nat,
                       playerIndex: int, gameIndex: int, text: string)
    requires Shape(players, playerList, gameNums)
    ensures Shape(EditScore(players, playerIndex, gameIndex, text), playerList, gameNums)
  {
  }

  /**
   * Recomputing the total from scratch agrees with adjusting the old total by
   * the change in the edited slot.
   */
  lemma EditTotalDelta(players: seq<Player>, playerIndex: int, gameIndex: int, text: string)
    requires 0 <= playerIndex < |players| && Consistent(players[playerIndex])
    requires 0 <= gameIndex < |players[playerIndex].score|
    ensures EditScore(players, playerIndex, gameIndex, text)[playerIndex].total ==
            players[playerIndex].total - OrZero(players[playerIndex].score[gameIndex]) + CellValue(text)
  {
    TotalUpdate(players[playerIndex].score, gameIndex, Some(CellValue(text)));
  }

  /** The slot an edit lands in is always set afterwards: no text makes it `undefined` again. */
  lemma EditedSlotIsSet(players: seq<Player>, playerIndex: int, gameIndex: int, text: string)
    requires 0 <= playerIndex < |players| && 0 <= gameIndex < |players[playerIndex].score|
    ensures var cell := EditScore(players, playerIndex, gameIndex, text)[playerIndex].score[gameIndex];
            cell.Some? && (Parse(text).None? || Parse(text) == Some(0) ==> cell == Some(0))
  {
  }

  /** The later of two edits to the same slot wins. */
  lemma EditOverwrite(players: seq<Player>, playerIndex: int, gameIndex: int, first: string, second: string)
    ensures EditScore(EditScore(players, playerIndex, gameIndex, first), playerIndex, gameIndex, second) ==
            EditScore(players, playerIndex, gameIndex, second)
  {
    var a := EditScore(EditScore(players, playerIndex, gameIndex, first), playerIndex, gameIndex, second);
    var b := EditScore(players, playerIndex, gameIndex, second);
    if 0 <= playerIndex < |players| {
      var p := players[playerIndex];
      if 0 <= gameIndex < |p.score| {
        assert p.score[gameIndex := Some(CellValue(first))][gameIndex := Some(CellValue(second))] ==
               p.score[gameIndex := Some(CellValue(second))];
      }
      assert a[playerIndex] == b[playerIndex];
    }
    assert forall i :: 0 <= i < |a| ==> a[i] == b[i];
  }

  /** Edits to two different slots can be made in either order. */
  lemma EditsCommute(players: seq<Player>, p1: int, g1: int, t1: string, p2: int, g2: int, t2: string)
    requires p1 != p2 || g1 != g2
    ensures EditScore(EditScore(players, p1, g1, t1), p2, g2, t2) ==
            EditScore(EditScore(players, p2, g2, t2), p1, g1, t1)
  {
    var a := EditScore(EditScore(players, p1, g1, t1), p2, g2, t2);
    var b := EditScore(EditScore(players, p2, g2, t2), p1, g1, t1);
    if p1 == p2 && 0 <= p1 < |players| {
      var p := players[p1];
      if 0 <= g1 < |p.score| && 0 <= g2 < |p.score| {
        assert p.score[g1 := Some(CellValue(t1))][g2 := Some(CellValue(t2))] ==
               p.score[g2 := Some(CellValue(t2))][g1 := Some(CellValue(t1))];
      }
      assert a[p1] == b[p1];
    }
    assert forall i :: 0 <= i < |a| ==> a[i] == b[i];
  }

  /**
   * Retyping the text a set slot shows leaves the table as it was; retyping
   * an empty slot's text (the empty string) sets it to 0 without moving the total.
   */
  lemma RetypeShownText(players: seq<Player>, playerIndex: int, gameIndex: int)
    requires AllConsistent(players)
    requires 0 <= playerIndex < |players| && 0 <= gameIndex < |players[playerIndex].score|
    ensures var cell := players[playerIndex].score[gameIndex];
            var r := EditScore(players, playerIndex, gameIndex, CellText(cell));
            (cell.Some? ==> r == players) &&
            (cell.None? ==> r[playerIndex].score[gameIndex] == Some(0) && r[playerIndex].total == players[playerIndex].total)
  {
    var p := players[playerIndex];
    var cell := p.score[gameIndex];
    var r := EditScore(players, playerIndex, gameIndex, CellText(cell));
    CellTextRoundTrip(cell);
    TotalUpdate(p.score, gameIndex, Some(CellValue(CellText(cell))));
    if cell.Some? {
      assert p.score[gameIndex := cell] == p.score;
      assert r[playerIndex] == p;
      assert forall i :: 0 <= i < |r| ==> r[i] == players[i];
    }
  }
}
