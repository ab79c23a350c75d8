/**
 * The `App` component's state and handlers (src/App.tsx:53-140): the setup
 * form's fields (`playerList`, `gameNums`), the phase flag `gameStart` and the
 * score table `players`. Rendering decides which handlers can be reached: the
 * setup form only while `gameStart` is false, the grid and the reset button
 * only while it is true (src/App.tsx:144, 190).
 */
module ScoreboardApp {
  import opened Wrappers
  import opened ScoreText
  import opened Players
  import opened Leaderboard

  class App {
    var gameStart: bool
    var players: seq<Player>
    var playerList: seq<string>
    var gameNums: nat

    /**
     * There is always at least one name slot; every total is the sum of its
     * row; while a game is on, the table has one row per name slot, in order,
     * each with one slot per round.
     */
    ghost predicate Valid()
      reads this
    {
      |playerList| >= 1 &&
      AllConsistent(players) &&
      (gameStart ==> Shape(players, playerList, gameNums))
    }

    /** The form's default values and the initial component state (src/App.tsx:54-62). */
    constructor ()
      ensures Valid()
      ensures !gameStart && players == [] && playerList == [""] && gameNums == 10
    {
      gameStart := false;
      players := [];
      playerList := [""];
      gameNums := 10;
    }

    /**
     * The add button next to slot `index`. It is rendered only beside the
     * last slot, so `index` is always `|playerList| - 1`; `append({ name: "" })`
     * adds the empty slot at the end whatever `index` is. (The deferred focus
     * move to slot `index + 1` carries no data.)
     */
    method AppendPlayer(index: int)
      requires Valid() && !gameStart
      modifies this`playerList
      ensures Valid()
      ensures playerList == old(playerList) + [""]
    {
      playerList := playerList + [""];
    }

    /**
     * The remove button of slot `index`. Slot 0 has no such button, so a
     * request for it, like one past the end, changes nothing.
     */
    method RemovePlayer(index: int)
      requires Valid() && !gameStart
      modifies this`playerList
      ensures Valid()
      ensures 0 < index < |old(playerList)| ==>
                |playerList| == |old(playerList)| - 1 &&
                playerList == old(playerList)[..index] + old(playerList)[index + 1..]
      ensures !(0 < index < |old(playerList)|) ==> playerList == old(playerList)
      ensures playerList[0] == old(playerList)[0]
    {
      if 0 < index < |playerList| {
        playerList := playerList[..index] + playerList[index + 1..];
      }
    }

    /** Typing in name slot `index`. */
    method SetPlayerName(index: int, name: string)
      requires Valid() && !gameStart
      modifies this`playerList
      ensures Valid()
      ensures 0 <= index < |old(playerList)| ==> playerList == old(playerList)[index := name]
      ensures !(0 <= index < |old(playerList)|) ==> playerList == old(playerList)
    {
      if 0 <= index < |playerList| {
        playerList := playerList[index := name];
      }
    }

    /** Typing in the round-count field. */
    method SetGameNums(n: nat)
      requires Valid() && !gameStart
      modifies this`gameNums
      ensures Valid() && gameNums == n
    {
      gameNums := n;
    }

    /**
     * `handleClickStartGame` (src/App.tsx:88-100): the game is on, with one
     * fresh player per name slot. The form values stay as they were.
     */
    method StartGame()
      requires Valid()
      modifies this`gameStart, this`players
      ensures Valid() && gameStart
      ensures players == NewPlayers(playerList, gameNums)
    {
      gameStart := true;
      players := NewPlayers(playerList, gameNums);
    }

    /**
     * `handleClickResetGame` (src/App.tsx:103-108): `confirmed` is the answer
     * to the confirmation prompt. A confirmed reset only returns to the setup
     * phase; the table and the form values are kept in memory.
     */
    method ResetGame(confirmed: bool)
      requires Valid()
      modifies this`gameStart
      ensures Valid()
      ensures gameStart == (old(gameStart) && !confirmed)
    {
      if confirmed {
        gameStart := false;
      }
    }

    /**
     * `handleBlurInput` (src/App.tsx:111-140): the text `text` typed into
     * round `gameIndex` of player `playerIndex` replaces that slot and that
     * player's total is recomputed; nothing else changes.
     */
    method EnterScore(playerIndex: int, gameIndex: int, text: string)
      requires Valid()
      modifies this`players
      ensures Valid()
      ensures players == EditScore(old(players), playerIndex, gameIndex, text)
    {
      EditKeepsConsistent(players, playerIndex, gameIndex, text);
      if gameStart {
        EditKeepsShape(players, playerList, gameNums, playerIndex, gameIndex, text);
      }
      players := EditScore(players, playerIndex, gameIndex, text);
    }

    /** The leaderboard panel, computed from the table without reordering it. */
    function Panel(): (rows: seq<Standing>)
      reads this
      ensures |rows| == |players|
    {
      Standings(players)
    }
  }

  const Ann := Player("Ann", [Some(10), Some(0), Some(-50)], -40)
  const Bo := Player("Bo", [Some(5), Some(5), Some(5)], 15)

  /**
   * A short game: three rounds, Ann and Bo. Ann scores 10, 0 and -50, Bo
   * three times 5; the table ends as `[Ann, Bo]`.
   */
  lemma WalkthroughTable()
    ensures var t0 := NewPlayers(["Ann", "Bo"], 3);
            var t1 := EditScore(EditScore(EditScore(t0, 0, 0, "10"), 0, 1, "0"), 0, 2, "-50");
            EditScore(EditScore(EditScore(t1, 1, 0, "5"), 1, 1, "5"), 1, 2, "5") == [Ann, Bo]
  {
    ParseSamples();
    TotalOfThree(Some(10), Some(0), Some(-50));
    TotalOfThree(Some(5), Some(5), Some(5));
    var t0 := NewPlayers(["Ann", "Bo"], 3);
    assert t0[0].score == [None, None, None] && t0[1].score == [None, None, None];
    var t1 := EditScore(EditScore(EditScore(t0, 0, 0, "10"), 0, 1, "0"), 0, 2, "-50");
    assert t1[0].score == Ann.score;
    var t2 := EditScore(EditScore(EditScore(t1, 1, 0, "5"), 1, 1, "5"), 1, 2, "5");
    assert t2[1].score == Bo.score;
  }

  /** Ann, with the lower total, leads; Bo trails her by 55. */
  lemma WalkthroughPanel()
    ensures Standings([Ann, Bo]) == [Standing(1, "Ann", -40, None), Standing(2, "Bo", 15, Some(55))]
  {
  }

  /** The setup form filled in for the walkthrough game. */
  method SetUpWalkthrough() returns (app: App)
    ensures fresh(app) && app.Valid() && !app.gameStart
    ensures app.playerList == ["Ann", "Bo"] && app.gameNums == 3
  {
    app := new App();
    app.SetGameNums(3);
    app.SetPlayerName(0, "Ann");
    app.AppendPlayer(0);
    app.SetPlayerName(1, "Bo");
  }

  /**
   * The same game played through the component's handlers, followed by a
   * declined and a confirmed reset.
   */
  method Walkthrough() returns (app: App)
    ensures app.Valid() && !app.gameStart
    ensures app.playerList == ["Ann", "Bo"] && app.gameNums == 3
    ensures app.players == [Ann, Bo]
  {
    app := SetUpWalkthrough();
    app.StartGame();
    ghost var t0 := app.players;
    assert t0 == NewPlayers(["Ann", "Bo"], 3);
    app.EnterScore(0, 0, "10");
    app.EnterScore(0, 1, "0");
    app.EnterScore(0, 2, "-50");
    ghost var t1 := app.players;
    assert t1 == EditScore(EditScore(EditScore(t0, 0, 0, "10"), 0, 1, "0"), 0, 2, "-50");
    app.EnterScore(1, 0, "5");
    app.EnterScore(1, 1, "5");
    app.EnterScore(1, 2, "5");
    assert app.players == EditScore(EditScore(EditScore(t1, 1, 0, "5"), 1, 1, "5"), 1, 2, "5");
    WalkthroughTable();
    assert app.players == [Ann, Bo];
    WalkthroughPanel();
    var rows := app.Panel();
    assert rows[1].gap == Some(55);
    app.ResetGame(false);
    assert app.gameStart;
    app.ResetGame(true);
    assert !app.gameStart && app.players == [Ann, Bo];
  }
}
