/**
 * The session controller of the game page: it creates the players of a game,
 * adds a point to the player who found a pair, passes the turn round-robin,
 * and returns to the setup form on "play again", remembering the last-used
 * player count and names as defaults for the next setup.
 */
module GamePage {
  import opened Wrappers
  import opened Types
  import Board

  /** The players `initializeGameStates` creates: ids 1..n, the given name or a placeholder, score 0. */
  function InitialPlayers(settings: GameSettings): (players: seq<Player>)
    ensures |players| == if settings.numPlayers > 0 then settings.numPlayers else 0
  {
    var n := if settings.numPlayers > 0 then settings.numPlayers else 0;
    seq(n, i requires 0 <= i < n => Player(i + 1, NameOrDefault(settings.playerNames, i), 0))
  }

  /** Player ids are 1, 2, ..., n in list order. */
  predicate NumberedInOrder(players: seq<Player>) {
    forall i :: 0 <= i < |players| ==> players[i].id == i + 1
  }

  /** The `map` of handlePlayerScored: the player with this id gets one more point. */
  function ScorePlayer(players: seq<Player>, playerId: int): (r: seq<Player>)
    ensures |r| == |players|
  {
    seq(|players|, i requires 0 <= i < |players| =>
      if players[i].id == playerId then players[i].(score := players[i].score + 1) else players[i])
  }

  /** The sum of all scores. */
  function TotalScore(players: seq<Player>): int {
    if players == [] then 0 else players[0].score + TotalScore(players[1..])
  }

  /** The id handleNextPlayerTurn selects: the player at index `currentPlayerId % numPlayers`. */
  function NextPlayerId(players: seq<Player>, currentPlayerId: int, numPlayers: int): int
    requires numPlayers > 0 && currentPlayerId >= 0 && numPlayers <= |players|
  {
    players[currentPlayerId % numPlayers].id
  }

  /**
   * What holds between handler calls: before a game there are no players and
   * player 1 is current; during a game there are `numPlayers >= 1` players,
   * numbered 1..n with non-negative scores, and the current id is one of them.
   */
  predicate SessionInvariant(gameSettings: Option<GameSettings>, players: seq<Player>, currentPlayerId: int) {
    match gameSettings
    case None => players == [] && currentPlayerId == 1
    case Some(settings) =>
      settings.numPlayers >= 1 && |players| == settings.numPlayers && NumberedInOrder(players) &&
      (forall i :: 0 <= i < |players| ==> players[i].score >= 0) &&
      1 <= currentPlayerId <= settings.numPlayers
  }

  // ---------------------------------------------------------------------------
  // Lemmas

  /**
   * Starting a game with `n >= 1` players creates players 1..n in order, all
   * with score 0, each named by the settings or `Player i+1` when that name
   * is missing or empty; with player 1 current the session invariant holds.
   */
  lemma StartCreatesPlayers(settings: GameSettings)
    requires settings.numPlayers >= 1
    ensures var players := InitialPlayers(settings);
      |players| == settings.numPlayers &&
      (forall i :: 0 <= i < |players| ==>
        players[i].id == i + 1 && players[i].score == 0 && players[i].name != "" &&
        (i < |settings.playerNames| && settings.playerNames[i] != "" ==> players[i].name == settings.playerNames[i]) &&
        (i >= |settings.playerNames| || settings.playerNames[i] == "" ==> players[i].name == DefaultPlayerName(i))) &&
      TotalScore(players) == 0 &&
      SessionInvariant(Some(settings), players, 1)
  {
    AllZeroTotal(InitialPlayers(settings));
  }

  lemma {:induction false} AllZeroTotal(players: seq<Player>)
    requires forall i :: 0 <= i < |players| ==> players[i].score == 0
    ensures TotalScore(players) == 0
  {
    if players != [] {
      AllZeroTotal(players[1..]);
    }
  }

  lemma {:induction false} ScoreAddsAtMostOne(players: seq<Player>, playerId: int, first: int)
    requires forall i :: 0 <= i < |players| ==> players[i].id == first + i
    ensures TotalScore(ScorePlayer(players, playerId)) ==
      TotalScore(players) + if first <= playerId < first + |players| then 1 else 0
    decreases |players|
  {
    if players != [] {
      assert ScorePlayer(players, playerId)[1..] == ScorePlayer(players[1..], playerId);
      ScoreAddsAtMostOne(players[1..], playerId, first + 1);
    }
  }

  /**
   * handlePlayerScored(id) adds exactly one point to the player with that id
   * and changes nothing else: same length and order, same ids and names,
   * every other score unchanged. The total score grows by one exactly when
   * the id is a player's.
   */
  lemma ScoreOnlyThatPlayer(players: seq<Player>, playerId: int)
    requires NumberedInOrder(players)
    ensures var r := ScorePlayer(players, playerId);
      |r| == |players| &&
      (forall i :: 0 <= i < |players| ==>
        r[i].id == players[i].id && r[i].name == players[i].name &&
        r[i].score == players[i].score + (if players[i].id == playerId then 1 else 0)) &&
      NumberedInOrder(r) &&
      TotalScore(r) == TotalScore(players) + (if 1 <= playerId <= |players| then 1 else 0)
  {
    ScoreAddsAtMostOne(players, playerId, 1);
  }

  /** With players numbered 1..n, the next player is `(currentPlayerId % n) + 1`, always one of them. */
  lemma NextPlayerRoundRobin(players: seq<Player>, currentPlayerId: int)
    requires NumberedInOrder(players) && |players| > 0 && currentPlayerId >= 0
    ensures NextPlayerId(players, currentPlayerId, |players|) == (currentPlayerId % |players|) + 1
    ensures 1 <= NextPlayerId(players, currentPlayerId, |players|) <= |players|
    ensures |players| == 1 ==> NextPlayerId(players, currentPlayerId, |players|) == 1
  {
  }

  /** The current player after `k` turn changes among `n` players. */
  function AdvanceTurns(currentPlayerId: int, n: int, k: nat): int
    requires n > 0 && currentPlayerId >= 0
    ensures AdvanceTurns(currentPlayerId, n, k) >= 0
  {
    if k == 0 then currentPlayerId else (AdvanceTurns(currentPlayerId, n, k - 1) % n) + 1
  }

  /** One turn change from player `v` of `n`: the next one, wrapping from `n` back to 1. */
  lemma NextTurnWraps(v: int, n: int)
    requires 1 <= v <= n
    ensures (v % n) + 1 == if v == n then 1 else v + 1
  {
    if v < n {
      assert v / n == 0;
    } else {
      assert v / n == 1;
    }
  }

  lemma {:induction false} AdvanceTurnsWithinRound(currentPlayerId: int, n: int, k: nat)
    requires 1 <= currentPlayerId <= n && k <= n
    ensures AdvanceTurns(currentPlayerId, n, k) ==
      if currentPlayerId + k <= n then currentPlayerId + k else currentPlayerId + k - n
  {
    if k > 0 {
      AdvanceTurnsWithinRound(currentPlayerId, n, k - 1);
      NextTurnWraps(AdvanceTurns(currentPlayerId, n, k - 1), n);
    }
  }

  /** How many turn changes it takes to get from player `from` to player `to` among `n`. */
  function TurnsUntil(from: int, to: int, n: int): int {
    if to >= from then to - from else to - from + n
  }

  /**
   * Round-robin fairness: within `n` turn changes among `n` players every
   * player gets the turn, each after fewer than `n` changes, and after `n`
   * changes it is back where it started.
   */
  lemma TurnsCycle(currentPlayerId: int, n: int)
    requires 1 <= currentPlayerId <= n
    ensures AdvanceTurns(currentPlayerId, n, n) == currentPlayerId
    ensures forall k: nat :: k < n ==> 1 <= AdvanceTurns(currentPlayerId, n, k) <= n
    ensures forall p :: 1 <= p <= n ==>
      0 <= TurnsUntil(currentPlayerId, p, n) < n &&
      AdvanceTurns(currentPlayerId, n, TurnsUntil(currentPlayerId, p, n)) == p
  {
    AdvanceTurnsWithinRound(currentPlayerId, n, n);
    forall k: nat | k < n ensures 1 <= AdvanceTurns(currentPlayerId, n, k) <= n {
      AdvanceTurnsWithinRound(currentPlayerId, n, k);
    }
    forall p | 1 <= p <= n
      ensures 0 <= TurnsUntil(currentPlayerId, p, n) < n &&
        AdvanceTurns(currentPlayerId, n, TurnsUntil(currentPlayerId, p, n)) == p
    {
      AdvanceTurnsWithinRound(currentPlayerId, n, TurnsUntil(currentPlayerId, p, n));
    }
  }

  // ---------------------------------------------------------------------------
  // Reacting to the board

  /** The page's reaction to one board event: the two callbacks it hands to the board. */
  function ApplyEvent(gameSettings: Option<GameSettings>, players: seq<Player>, currentPlayerId: int, event: Board.Event)
    : (r: (seq<Player>, int))
    requires SessionInvariant(gameSettings, players, currentPlayerId)
    ensures SessionInvariant(gameSettings, r.0, r.1)
  {
    match event
    case PlayerScored(id) =>
      ScoreAddsAtMostOne(players, id, 1);
      (ScorePlayer(players, id), currentPlayerId)
    case NextPlayerTurn =>
      if gameSettings.None? || |players| == 0 then (players, currentPlayerId)
      else
        NextPlayerRoundRobin(players, currentPlayerId);
        (players, NextPlayerId(players, currentPlayerId, gameSettings.value.numPlayers))
  }

  /** The page's reaction to a series of board events, in order. */
  function ApplyEvents(gameSettings: Option<GameSettings>, players: seq<Player>, currentPlayerId: int, events: seq<Board.Event>)
    : (r: (seq<Player>, int))
    requires SessionInvariant(gameSettings, players, currentPlayerId)
    ensures SessionInvariant(gameSettings, r.0, r.1)
    decreases |events|
  {
    if events == [] then (players, currentPlayerId)
    else
      var (next, turn) := ApplyEvent(gameSettings, players, currentPlayerId, events[0]);
      ApplyEvents(gameSettings, next, turn, events[1..])
  }

  /**
   * A found pair, from the check through the page's callbacks, gives the
   * current player exactly one point, changes no other player and keeps the
   * turn with the same player.
   */
  lemma MatchScoresCurrentPlayer(b: Board.BoardState, settings: GameSettings, players: seq<Player>, currentPlayerId: int)
    requires Board.BoardInvariant(b)
    requires |b.flippedCards| == 2 && b.flippedCards[0].pairId == b.flippedCards[1].pairId
    requires SessionInvariant(Some(settings), players, currentPlayerId)
    ensures var (after, turn) := ApplyEvents(Some(settings), players, currentPlayerId, Board.CheckStep(b, currentPlayerId).1);
      turn == currentPlayerId && |after| == |players| &&
      after[currentPlayerId - 1].score == players[currentPlayerId - 1].score + 1 &&
      (forall i :: 0 <= i < |players| && i != currentPlayerId - 1 ==> after[i] == players[i]) &&
      TotalScore(after) == TotalScore(players) + 1
  {
    Board.MatchResolves(b, currentPlayerId);
    ScoreOnlyThatPlayer(players, currentPlayerId);
    var events := Board.CheckStep(b, currentPlayerId).1;
    assert events[1..] == [];
  }

  /**
   * A mismatch, from the check through the deferred reset and the page's
   * callbacks, changes no score and passes the turn exactly once.
   */
  lemma MismatchKeepsScores(b: Board.BoardState, settings: GameSettings, players: seq<Player>, currentPlayerId: int)
    requires Board.BoardInvariant(b)
    requires |b.flippedCards| == 2 && b.flippedCards[0].pairId != b.flippedCards[1].pairId
    requires SessionInvariant(Some(settings), players, currentPlayerId)
    ensures var (checked, early) := Board.CheckStep(b, currentPlayerId);
      Board.MismatchPending(checked) &&
      var (reset, late) := Board.MismatchTimerStep(checked);
      ApplyEvents(Some(settings), players, currentPlayerId, early + late) ==
        (players, (currentPlayerId % settings.numPlayers) + 1)
  {
    Board.MismatchDefers(b, currentPlayerId);
    NextPlayerRoundRobin(players, currentPlayerId);
    var checked := Board.CheckStep(b, currentPlayerId).0;
    var events := Board.CheckStep(b, currentPlayerId).1 + Board.MismatchTimerStep(checked).1;
    assert events == [Board.NextPlayerTurn];
    assert events[1..] == [];
  }

  // ---------------------------------------------------------------------------
  // The page component's state

  class MatchUpMemoryPage {
    var gameSettings: Option<GameSettings>
    var players: seq<Player>
    var currentPlayerId: int
    var lastNumPlayers: int
    var lastPlayerNames: seq<string>

    ghost predicate Valid()
      reads this
    {
      SessionInvariant(gameSettings, players, currentPlayerId)
    }

    /** The initial `useState` values. */
    constructor ()
      ensures gameSettings == None && players == [] && currentPlayerId == 1
      ensures lastNumPlayers == 1 && lastPlayerNames == ["Player 1"]
      ensures Valid()
    {
      gameSettings := None;
      players := [];
      currentPlayerId := 1;
      lastNumPlayers := 1;
      lastPlayerNames := ["Player 1"];
    }

    /** initializeGameStates; the announcement reads the first player, so there must be one. */
    method InitializeGameStates(settings: GameSettings)
      requires settings.numPlayers >= 1
      modifies this`players, this`currentPlayerId
      ensures players == InitialPlayers(settings) && currentPlayerId == 1
    {
      players := InitialPlayers(settings);
      currentPlayerId := 1;
    }

    /** handleStartGame: store the settings, create the players, remember the settings as last used. */
    method HandleStartGame(settings: GameSettings)
      requires settings.numPlayers >= 1
      modifies this
      ensures gameSettings == Some(settings)
      ensures players == InitialPlayers(settings) && currentPlayerId == 1
      ensures lastNumPlayers == settings.numPlayers && lastPlayerNames == settings.playerNames
      ensures Valid()
    {
      gameSettings := Some(settings);
      InitializeGameStates(settings);
      lastNumPlayers := settings.numPlayers;
      lastPlayerNames := settings.playerNames;
      StartCreatesPlayers(settings);
    }

    /** handlePlayAgain: back to setup; the last-used values are kept. */
    method HandlePlayAgain()
      modifies this`gameSettings, this`players, this`currentPlayerId
      ensures gameSettings == None && players == [] && currentPlayerId == 1
      ensures Valid()
    {
      gameSettings := None;
      players := [];
      currentPlayerId := 1;
    }

    /** handlePlayerScored */
    method HandlePlayerScored(playerId: int)
      requires Valid()
      modifies this`players
      ensures players == ScorePlayer(old(players), playerId)
      ensures forall i :: 0 <= i < |players| ==> players[i].score >= old(players)[i].score
      ensures Valid()
    {
      ScoreOnlyThatPlayer(players, playerId);
      players := ScorePlayer(players, playerId);
    }

    /** handleNextPlayerTurn: does nothing before a game; otherwise the next player in round-robin order. */
    method HandleNextPlayerTurn()
      requires Valid()
      modifies this`currentPlayerId
      ensures gameSettings == None || old(players) == [] ==> currentPlayerId == old(currentPlayerId)
      ensures gameSettings.Some? && old(players) != [] ==>
        currentPlayerId == (old(currentPlayerId) % gameSettings.value.numPlayers) + 1 &&
        1 <= currentPlayerId <= gameSettings.value.numPlayers
      ensures Valid()
    {
      if gameSettings.None? || |players| == 0 {
        return;
      }
      var nextPlayerIndex := currentPlayerId % gameSettings.value.numPlayers;
      var nextPlayer := players[nextPlayerIndex];
      NextPlayerRoundRobin(players, currentPlayerId);
      currentPlayerId := nextPlayer.id;
    }

    /** The board's callbacks, wired to the two handlers above. */
    method HandleBoardEvent(event: Board.Event)
      requires Valid()
      modifies this`players, this`currentPlayerId
      ensures (players, currentPlayerId) == ApplyEvent(gameSettings, old(players), old(currentPlayerId), event)
      ensures Valid()
    {
      match event
      case PlayerScored(id) => HandlePlayerScored(id);
      case NextPlayerTurn => HandleNextPlayerTurn();
    }
  }
}
