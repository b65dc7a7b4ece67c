/**
 * The match engine of the game board: card selection, match and mismatch
 * resolution, the deferred reset after a mismatch, and end-of-game detection.
 *
 * The board's React state is a `BoardState`; each handler is a step function
 * on it, and class `GameBoard` performs the same updates field by field.
 * The callbacks `onPlayerScored` and `onNextPlayerTurn` are returned as
 * events for the session to apply, and the 1200 ms timer that defers the
 * mismatch reset is the separate step `ResolveMismatch`.
 */
module Board {
  import opened Wrappers
  import opened Types
  import GameUtils

  datatype Status = Playing | Finished

  /** `null`, a single winning player, or the array of tied players. */
  datatype Winner = NoWinner | Single(player: Player) | Tie(players: seq<Player>)

  /** A call of one of the callbacks the board receives from the session. */
  datatype Event = PlayerScored(playerId: int) | NextPlayerTurn

  datatype BoardState = BoardState(
    cards: seq<Card>,
    flippedCards: seq<Card>,
    isChecking: bool,
    gameStatus: Status,
    winner: Winner)

  // ---------------------------------------------------------------------------
  // Queries and card rewrites

  /** `cards.find(card => card.id === id)`, as the index of the first match. */
  function FindCard(cards: seq<Card>, id: string): (r: Option<nat>)
    ensures r.Some? ==> (r.value < |cards| && cards[r.value].id == id &&
                         forall k :: 0 <= k < r.value ==> cards[k].id != id)
    ensures r.None? ==> forall k :: 0 <= k < |cards| ==> cards[k].id != id
  {
    if |cards| == 0 then None
    else if cards[0].id == id then Some(0)
    else match FindCard(cards[1..], id)
      case None => None
      case Some(k) => Some(k + 1)
  }

  /** The card with this id is in the selection. */
  predicate Selected(selection: seq<Card>, id: string) {
    FindCard(selection, id).Some?
  }

  predicate UniqueIds(cards: seq<Card>) {
    forall i, j :: 0 <= i < j < |cards| ==> cards[i].id != cards[j].id
  }

  /** `cards.every(card => card.isMatched)` */
  predicate AllMatched(cards: seq<Card>) {
    forall i :: 0 <= i < |cards| ==> cards[i].isMatched
  }

  /** The `map` of handleCardClick: the card with this id is turned face up. */
  function FlipCard(cards: seq<Card>, id: string): (r: seq<Card>)
    ensures |r| == |cards|
  {
    seq(|cards|, i requires 0 <= i < |cards| =>
      if cards[i].id == id then cards[i].(isFlipped := true) else cards[i])
  }

  /** The `map` of a match: every card of the pair becomes matched and stays face up. */
  function MatchPair(cards: seq<Card>, pairId: string): (r: seq<Card>)
    ensures |r| == |cards|
  {
    seq(|cards|, i requires 0 <= i < |cards| =>
      if cards[i].pairId == pairId then cards[i].(isMatched := true, isFlipped := true) else cards[i])
  }

  /** The `map` of resetFlippedCards: selected, unmatched cards are turned face down. */
  function UnflipSelection(cards: seq<Card>, selection: seq<Card>): (r: seq<Card>)
    ensures |r| == |cards|
  {
    seq(|cards|, i requires 0 <= i < |cards| =>
      if Selected(selection, cards[i].id) && !cards[i].isMatched then cards[i].(isFlipped := false) else cards[i])
  }

  // ---------------------------------------------------------------------------
  // Winners

  /** `Math.max(...players.map(p => p.score))` */
  function MaxScore(players: seq<Player>): (m: int)
    requires |players| > 0
    ensures forall i :: 0 <= i < |players| ==> players[i].score <= m
    ensures exists i :: 0 <= i < |players| && players[i].score == m
  {
    if |players| == 1 then players[0].score
    else
      var rest := MaxScore(players[1..]);
      if players[0].score >= rest then players[0].score else rest
  }

  /** `players.filter(p => p.score === score)` */
  function WithScore(players: seq<Player>, score: int): (r: seq<Player>)
    ensures |r| <= |players|
    ensures forall p :: p in r <==> p in players && p.score == score
    ensures forall p :: multiset(r)[p] == if p.score == score then multiset(players)[p] else 0
  {
    if players == [] then []
    else
      assert players == [players[0]] + players[1..];
      (if players[0].score == score then [players[0]] else []) + WithScore(players[1..], score)
  }

  /** Index `i` is the only position of `players` holding `score`. */
  predicate SoleWithScore(players: seq<Player>, score: int, i: int) {
    0 <= i < |players| && players[i].score == score &&
    forall j :: 0 <= j < |players| && players[j].score == score ==> j == i
  }

  /** The filter is empty exactly when no position holds the score. */
  lemma WithScoreEmpty(players: seq<Player>, score: int)
    ensures WithScore(players, score) == [] <==> forall j :: 0 <= j < |players| ==> players[j].score != score
  {
    if WithScore(players, score) != [] {
      assert WithScore(players, score)[0] in WithScore(players, score);
    }
  }

  /** Past a first player without the score, sole positions shift by one. */
  lemma SoleShift(players: seq<Player>, score: int, i: int)
    requires players != [] && players[0].score != score
    ensures SoleWithScore(players, score, i) <==> i > 0 && SoleWithScore(players[1..], score, i - 1)
  {
    var tail := players[1..];
    if SoleWithScore(players, score, i) {
      forall j | 0 <= j < |tail| && tail[j].score == score ensures j == i - 1 {
        assert players[j + 1] == tail[j];
      }
    }
    if i > 0 && SoleWithScore(tail, score, i - 1) {
      forall j | 0 <= j < |players| && players[j].score == score ensures j == i {
        assert tail[j - 1] == players[j];
      }
    }
  }

  /** A first player with the score is the sole one exactly when the rest of the filter is empty. */
  lemma SoleAtHead(players: seq<Player>, score: int)
    requires players != [] && players[0].score == score
    ensures |WithScore(players, score)| == 1 <==> exists i :: SoleWithScore(players, score, i)
  {
    var tail := players[1..];
    WithScoreEmpty(tail, score);
    assert |WithScore(players, score)| == 1 + |WithScore(tail, score)|;
    if |WithScore(players, score)| == 1 {
      assert SoleWithScore(players, score, 0);
    }
  }

  /** The filter keeps one entry per matching position, so it has one entry exactly when one position matches. */
  lemma {:induction false} WithScoreSingleton(players: seq<Player>, score: int)
    ensures |WithScore(players, score)| == 1 <==> exists i :: SoleWithScore(players, score, i)
  {
    if players == [] {
    } else if players[0].score == score {
      SoleAtHead(players, score);
    } else {
      var tail := players[1..];
      WithScoreSingleton(tail, score);
      assert WithScore(players, score) == WithScore(tail, score);
      if exists i :: SoleWithScore(players, score, i) {
        var i :| SoleWithScore(players, score, i);
        SoleShift(players, score, i);
      }
      if exists i :: SoleWithScore(tail, score, i) {
        var i :| SoleWithScore(tail, score, i);
        SoleShift(players, score, i + 1);
      }
    }
  }

  function Winners(players: seq<Player>): seq<Player>
    requires |players| > 0
  {
    WithScore(players, MaxScore(players))
  }

  /** `winners.length === 1 ? winners[0] : winners` */
  function WinnerOf(winners: seq<Player>): Winner {
    if |winners| == 1 then Single(winners[0]) else Tie(winners)
  }

  // ---------------------------------------------------------------------------
  // The handlers as steps

  /** The settings effect: a fresh deck, nothing selected, playing, no winner. */
  function InitialBoard(deck: seq<Card>): BoardState {
    BoardState(deck, [], false, Playing, NoWinner)
  }

  /** handleCardClick */
  function ClickStep(s: BoardState, cardId: string): BoardState {
    if s.isChecking || |s.flippedCards| == 2 then s
    else match FindCard(s.cards, cardId)
      case None => s
      case Some(i) =>
        var clicked := s.cards[i];
        if clicked.isFlipped || clicked.isMatched then s
        else if |s.flippedCards| == 1 && s.flippedCards[0].id == cardId then s
        else s.(cards := FlipCard(s.cards, cardId),
                flippedCards := s.flippedCards + [clicked.(isFlipped := true)])
  }

  /** checkForMatch, run by the effect once two cards are selected. */
  function CheckStep(s: BoardState, currentPlayerId: int): (BoardState, seq<Event>) {
    if |s.flippedCards| == 2 then
      var checking := s.(isChecking := true);
      var first, second := s.flippedCards[0], s.flippedCards[1];
      if first.pairId == second.pairId then
        (checking.(cards := MatchPair(s.cards, first.pairId), flippedCards := [], isChecking := false),
         [PlayerScored(currentPlayerId)])
      else (checking, [])
    else (s, [])
  }

  /** resetFlippedCards */
  function ResetStep(s: BoardState): BoardState {
    s.(cards := UnflipSelection(s.cards, s.flippedCards), flippedCards := [], isChecking := false)
  }

  /** A mismatch has scheduled the deferred reset, which has not run yet. */
  predicate MismatchPending(s: BoardState) {
    s.isChecking
  }

  /** The timer callback of a mismatch: reset the selection, then pass the turn. */
  function MismatchTimerStep(s: BoardState): (BoardState, seq<Event>)
    requires MismatchPending(s)
  {
    (ResetStep(s), [NextPlayerTurn])
  }

  /** The end-of-game effect. */
  function GameEndStep(s: BoardState, players: seq<Player>): BoardState {
    if |s.cards| > 0 && |players| > 0 && AllMatched(s.cards) then
      s.(gameStatus := Finished, winner := WinnerOf(Winners(players)))
    else s
  }

  // ---------------------------------------------------------------------------
  // The board invariant

  /** Both cards of a pair are matched, or neither is. */
  predicate PairsAgree(cards: seq<Card>) {
    forall i, j :: 0 <= i < |cards| && 0 <= j < |cards| && cards[i].pairId == cards[j].pairId ==>
      cards[i].isMatched == cards[j].isMatched
  }

  /**
   * What holds between handler calls: ids are unique, pairs are matched
   * together, matched cards stay face up, at most two cards are selected,
   * each selected card is on the board, the unmatched face-up cards are
   * exactly the selected ones, and `isChecking` means a mismatch is pending.
   */
  predicate BoardInvariant(s: BoardState) {
    UniqueIds(s.cards) &&
    PairsAgree(s.cards) &&
    (forall i :: 0 <= i < |s.cards| && s.cards[i].isMatched ==> s.cards[i].isFlipped) &&
    |s.flippedCards| <= 2 &&
    (forall k :: 0 <= k < |s.flippedCards| ==> s.flippedCards[k] in s.cards) &&
    (|s.flippedCards| == 2 ==> s.flippedCards[0].id != s.flippedCards[1].id) &&
    (forall i :: 0 <= i < |s.cards| ==>
      (s.cards[i].isFlipped && !s.cards[i].isMatched <==> Selected(s.flippedCards, s.cards[i].id))) &&
    (s.isChecking ==> |s.flippedCards| == 2 && s.flippedCards[0].pairId != s.flippedCards[1].pairId)
  }

  /** Every matched card stays matched, and no card changes id, pair or icon. */
  predicate KeepsMatches(before: seq<Card>, after: seq<Card>) {
    |before| == |after| &&
    forall i :: 0 <= i < |before| ==>
      after[i].id == before[i].id && after[i].pairId == before[i].pairId &&
      after[i].iconName == before[i].iconName && (before[i].isMatched ==> after[i].isMatched)
  }

  // ---------------------------------------------------------------------------
  // Lemmas

  /** A selected card is a face-up, unmatched card of the board. */
  lemma SelectedCardsAreFaceUp(s: BoardState, i: nat)
    requires BoardInvariant(s) && i < |s.cards| && Selected(s.flippedCards, s.cards[i].id)
    ensures s.cards[i].isFlipped && !s.cards[i].isMatched
  {
  }

  /** A new board from a deck of distinct, face-down cards satisfies the invariant. */
  lemma InitialBoardInvariant(deck: seq<Card>)
    requires UniqueIds(deck)
    requires forall c :: c in deck ==> !c.isFlipped && !c.isMatched
    ensures BoardInvariant(InitialBoard(deck))
    ensures InitialBoard(deck).flippedCards == [] && !InitialBoard(deck).isChecking
    ensures InitialBoard(deck).gameStatus == Playing && InitialBoard(deck).winner == NoWinner
  {
    var s := InitialBoard(deck);
    forall i | 0 <= i < |deck| ensures !deck[i].isFlipped && !deck[i].isMatched {
      assert deck[i] in deck;
    }
  }

  /** A board dealt by generateCardSet satisfies the invariant. */
  lemma GeneratedBoardInvariant(numPairs: int, catalog: seq<string>, iconRolls: seq<real>, deckRolls: seq<real>)
    requires GameUtils.CardSetRolls(numPairs, catalog, iconRolls, deckRolls)
    ensures BoardInvariant(InitialBoard(GameUtils.CardSet(numPairs, catalog, iconRolls, deckRolls)))
  {
    GameUtils.CardSetUniqueIds(numPairs, catalog, iconRolls, deckRolls);
    GameUtils.CardSetFaceDown(numPairs, catalog, iconRolls, deckRolls);
    InitialBoardInvariant(GameUtils.CardSet(numPairs, catalog, iconRolls, deckRolls));
  }

  /** A click is accepted: no check is pending, fewer than two cards are selected, and the card is on the board face down and unmatched. */
  predicate Clickable(s: BoardState, cardId: string) {
    !s.isChecking && |s.flippedCards| < 2 &&
    exists i :: 0 <= i < |s.cards| && s.cards[i].id == cardId && !s.cards[i].isFlipped && !s.cards[i].isMatched
  }

  /** A click changes the board exactly when it is accepted; every other click is ignored. */
  lemma ClickChangesIffClickable(s: BoardState, cardId: string)
    requires BoardInvariant(s)
    ensures ClickStep(s, cardId) != s <==> Clickable(s, cardId)
  {
    if Clickable(s, cardId) {
      var i :| 0 <= i < |s.cards| && s.cards[i].id == cardId && !s.cards[i].isFlipped && !s.cards[i].isMatched;
      var found := FindCard(s.cards, cardId);
      assert found == Some(i);
      if |s.flippedCards| == 1 && s.flippedCards[0].id == cardId {
        assert false;
      }
      assert |ClickStep(s, cardId).flippedCards| == |s.flippedCards| + 1;
    }
  }

  /** With unique ids, flipping by id changes exactly the card at that position. */
  lemma FlipCardOnlyAt(cards: seq<Card>, i: nat)
    requires UniqueIds(cards) && i < |cards|
    ensures FlipCard(cards, cards[i].id) == cards[i := cards[i].(isFlipped := true)]
  {
    var r := FlipCard(cards, cards[i].id);
    forall k | 0 <= k < |cards| ensures r[k] == cards[i := cards[i].(isFlipped := true)][k] {
      if k < i { assert cards[k].id != cards[i].id; }
      if k > i { assert cards[i].id != cards[k].id; }
    }
  }

  /**
   * An accepted click turns exactly that card face up, leaves every other
   * card as it was, and appends the card to the selection, which then holds
   * at most two cards.
   */
  lemma ClickFlipsOnlyThatCard(s: BoardState, cardId: string, i: nat)
    requires BoardInvariant(s) && Clickable(s, cardId)
    requires i < |s.cards| && s.cards[i].id == cardId
    ensures var t := ClickStep(s, cardId);
      var flipped := s.cards[i].(isFlipped := true);
      t.cards == s.cards[i := flipped] &&
      t.flippedCards == s.flippedCards + [flipped] &&
      |t.flippedCards| == |s.flippedCards| + 1 <= 2 &&
      t.isChecking == s.isChecking && t.gameStatus == s.gameStatus && t.winner == s.winner
  {
    var found := FindCard(s.cards, cardId);
    assert found == Some(i);
    assert !s.cards[i].isFlipped && !s.cards[i].isMatched;
    if |s.flippedCards| == 1 && s.flippedCards[0].id == cardId {
      assert false;
    }
    FlipCardOnlyAt(s.cards, i);
  }

  /** Selecting the face-down, unmatched card at position `i` keeps the invariant. */
  lemma SelectPreservesInvariant(s: BoardState, i: nat)
    requires BoardInvariant(s) && !s.isChecking && |s.flippedCards| < 2
    requires i < |s.cards| && !s.cards[i].isFlipped && !s.cards[i].isMatched
    ensures var flipped := s.cards[i].(isFlipped := true);
      BoardInvariant(s.(cards := s.cards[i := flipped], flippedCards := s.flippedCards + [flipped]))
  {
    var flipped := s.cards[i].(isFlipped := true);
    var cards, selection := s.cards[i := flipped], s.flippedCards + [flipped];
    // Every card already selected is face up, so it is not the clicked one.
    forall k | 0 <= k < |s.flippedCards| ensures s.flippedCards[k] in cards && s.flippedCards[k].id != flipped.id {
      var m :| 0 <= m < |s.cards| && s.cards[m] == s.flippedCards[k];
      assert Selected(s.flippedCards, s.cards[m].id);
      assert m != i;
      assert cards[m] == s.cards[m];
    }
    assert selection[|s.flippedCards|] == flipped == cards[i];
    forall j | 0 <= j < |cards|
      ensures cards[j].isFlipped && !cards[j].isMatched <==> Selected(selection, cards[j].id)
    {
      if j != i {
        assert cards[j] == s.cards[j];
        assert s.cards[j].id != flipped.id;
        if Selected(selection, s.cards[j].id) {
          var k: nat := FindCard(selection, s.cards[j].id).value;
          assert k < |s.flippedCards| && s.flippedCards[k] == selection[k];
        }
      }
    }
    assert |selection| == 2 ==> selection[0].id != selection[1].id;
  }

  lemma ClickPreservesInvariant(s: BoardState, cardId: string)
    requires BoardInvariant(s)
    ensures BoardInvariant(ClickStep(s, cardId))
  {
    if Clickable(s, cardId) {
      var i :| 0 <= i < |s.cards| && s.cards[i].id == cardId && !s.cards[i].isFlipped && !s.cards[i].isMatched;
      ClickFlipsOnlyThatCard(s, cardId, i);
      SelectPreservesInvariant(s, i);
    } else {
      ClickChangesIffClickable(s, cardId);
    }
  }

  /** Checking a selection of fewer or more than two cards does nothing. */
  lemma CheckNeedsTwoCards(s: BoardState, currentPlayerId: int)
    requires |s.flippedCards| != 2
    ensures CheckStep(s, currentPlayerId) == (s, [])
  {
  }

  /** When both selected cards share a pair, every face-up unmatched card belongs to that pair. */
  lemma SelectionOfOnePair(s: BoardState, i: nat)
    requires BoardInvariant(s)
    requires |s.flippedCards| == 2 && s.flippedCards[0].pairId == s.flippedCards[1].pairId
    requires i < |s.cards| && s.cards[i].isFlipped && !s.cards[i].isMatched
    ensures s.cards[i].pairId == s.flippedCards[0].pairId
  {
    var k: nat := FindCard(s.flippedCards, s.cards[i].id).value;
    var m :| 0 <= m < |s.cards| && s.cards[m] == s.flippedCards[k];
    assert m == i;
  }

  /**
   * On a match every card of that pair becomes matched and face up, every
   * other card is unchanged, the current player scores exactly once, and the
   * selection clears without a pending check. No turn change is requested.
   */
  lemma MatchResolves(s: BoardState, currentPlayerId: int)
    requires BoardInvariant(s)
    requires |s.flippedCards| == 2 && s.flippedCards[0].pairId == s.flippedCards[1].pairId
    ensures var (t, events) := CheckStep(s, currentPlayerId);
      var p := s.flippedCards[0].pairId;
      events == [PlayerScored(currentPlayerId)] &&
      t.flippedCards == [] && !t.isChecking &&
      t.gameStatus == s.gameStatus && t.winner == s.winner &&
      |t.cards| == |s.cards| &&
      (forall i :: 0 <= i < |s.cards| ==>
        (t.cards[i].isMatched <==> s.cards[i].isMatched || s.cards[i].pairId == p) &&
        (s.cards[i].pairId == p ==> t.cards[i].isFlipped) &&
        (s.cards[i].pairId != p ==> t.cards[i] == s.cards[i])) &&
      (forall k :: 0 <= k < 2 ==> exists i :: 0 <= i < |t.cards| && t.cards[i].id == s.flippedCards[k].id && t.cards[i].isMatched) &&
      BoardInvariant(t)
  {
    var (t, events) := CheckStep(s, currentPlayerId);
    var p := s.flippedCards[0].pairId;
    assert t.cards == MatchPair(s.cards, p);
    forall k | 0 <= k < 2
      ensures exists i :: 0 <= i < |t.cards| && t.cards[i].id == s.flippedCards[k].id && t.cards[i].isMatched
    {
      var m :| 0 <= m < |s.cards| && s.cards[m] == s.flippedCards[k];
      assert t.cards[m].id == s.flippedCards[k].id && t.cards[m].isMatched;
    }
    forall i | 0 <= i < |t.cards|
      ensures t.cards[i].isFlipped && !t.cards[i].isMatched <==> Selected(t.flippedCards, t.cards[i].id)
    {
      if s.cards[i].isFlipped && !s.cards[i].isMatched {
        SelectionOfOnePair(s, i);
      }
    }
  }

  /** On a mismatch the board only starts checking: no card changes and no callback runs yet. */
  lemma MismatchDefers(s: BoardState, currentPlayerId: int)
    requires BoardInvariant(s)
    requires |s.flippedCards| == 2 && s.flippedCards[0].pairId != s.flippedCards[1].pairId
    ensures CheckStep(s, currentPlayerId) == (s.(isChecking := true), [])
    ensures MismatchPending(CheckStep(s, currentPlayerId).0)
    ensures BoardInvariant(CheckStep(s, currentPlayerId).0)
  {
  }

  lemma CheckPreservesInvariant(s: BoardState, currentPlayerId: int)
    requires BoardInvariant(s)
    ensures BoardInvariant(CheckStep(s, currentPlayerId).0)
  {
    if |s.flippedCards| == 2 {
      if s.flippedCards[0].pairId == s.flippedCards[1].pairId {
        MatchResolves(s, currentPlayerId);
      } else {
        MismatchDefers(s, currentPlayerId);
      }
    }
  }

  /**
   * The deferred mismatch step turns exactly the selected cards face down
   * (they are unmatched), leaves every other card as it was, clears the
   * selection and the check, and passes the turn once. Afterwards a card is
   * face up exactly when it is matched.
   */
  lemma ResolveMismatchUnflipsSelection(s: BoardState)
    requires BoardInvariant(s) && MismatchPending(s)
    ensures var (t, events) := MismatchTimerStep(s);
      events == [NextPlayerTurn] &&
      t.flippedCards == [] && !t.isChecking &&
      t.gameStatus == s.gameStatus && t.winner == s.winner &&
      |t.cards| == |s.cards| &&
      (forall i :: 0 <= i < |s.cards| ==>
        t.cards[i] == if Selected(s.flippedCards, s.cards[i].id) then s.cards[i].(isFlipped := false) else s.cards[i]) &&
      (forall i :: 0 <= i < |t.cards| ==> (t.cards[i].isFlipped <==> t.cards[i].isMatched)) &&
      BoardInvariant(t)
  {
    var (t, events) := MismatchTimerStep(s);
    forall i | 0 <= i < |s.cards|
      ensures t.cards[i] == if Selected(s.flippedCards, s.cards[i].id) then s.cards[i].(isFlipped := false) else s.cards[i]
    {
      if Selected(s.flippedCards, s.cards[i].id) {
        SelectedCardsAreFaceUp(s, i);
      }
    }
  }

  /** Every step keeps matched cards matched and keeps each card's id, pair and icon. */
  lemma StepsKeepMatches(s: BoardState, cardId: string, currentPlayerId: int, players: seq<Player>)
    ensures KeepsMatches(s.cards, ClickStep(s, cardId).cards)
    ensures KeepsMatches(s.cards, CheckStep(s, currentPlayerId).0.cards)
    ensures KeepsMatches(s.cards, ResetStep(s).cards)
    ensures KeepsMatches(s.cards, GameEndStep(s, players).cards)
  {
  }

  /** The winners are exactly the players with the top score, and there is at least one. */
  lemma WinnersAreTopScorers(players: seq<Player>)
    requires |players| > 0
    ensures |Winners(players)| >= 1
    ensures forall p :: p in Winners(players) <==> p in players && p.score == MaxScore(players)
    ensures forall p, q :: p in Winners(players) && q in players ==> q.score <= p.score
  {
    var i :| 0 <= i < |players| && players[i].score == MaxScore(players);
    assert players[i] in Winners(players);
  }

  /**
   * The decided winner: the player at the one position holding the top score
   * when there is such a position, and otherwise a tie of at least two
   * entries holding every top-scoring entry as often as it occurs.
   */
  lemma DecidedWinner(players: seq<Player>)
    requires |players| > 0
    ensures var m := MaxScore(players);
      forall i :: SoleWithScore(players, m, i) ==> WinnerOf(Winners(players)) == Single(players[i])
    ensures var m := MaxScore(players);
      (forall i :: !SoleWithScore(players, m, i)) ==>
        var w := WinnerOf(Winners(players));
        w.Tie? && |w.players| >= 2 &&
        forall p :: multiset(w.players)[p] == if p.score == m then multiset(players)[p] else 0
  {
    var m := MaxScore(players);
    var w := Winners(players);
    WinnersAreTopScorers(players);
    WithScoreSingleton(players, m);
    forall i | SoleWithScore(players, m, i) ensures WinnerOf(w) == Single(players[i]) {
      assert w[0] in w;
      var k :| 0 <= k < |players| && players[k] == w[0];
      assert k == i;
    }
  }

  /**
   * Once the deck is non-empty, at least one player exists and every card
   * is matched, the game is finished and the winner is decided as
   * `DecidedWinner` describes; before that, nothing changes.
   */
  lemma GameEndDetection(s: BoardState, players: seq<Player>)
    ensures var t := GameEndStep(s, players);
      t.cards == s.cards && t.flippedCards == s.flippedCards && t.isChecking == s.isChecking
    ensures |s.cards| > 0 && |players| > 0 && AllMatched(s.cards) ==>
      var t := GameEndStep(s, players);
      t.gameStatus == Finished &&
      (forall i :: SoleWithScore(players, MaxScore(players), i) ==> t.winner == Single(players[i])) &&
      ((forall i :: !SoleWithScore(players, MaxScore(players), i)) ==>
        t.winner.Tie? && |t.winner.players| >= 2 &&
        forall p :: multiset(t.winner.players)[p] ==
          if p.score == MaxScore(players) then multiset(players)[p] else 0)
    ensures !(|s.cards| > 0 && |players| > 0 && AllMatched(s.cards)) ==> GameEndStep(s, players) == s
  {
    if |s.cards| > 0 && |players| > 0 && AllMatched(s.cards) {
      DecidedWinner(players);
    }
  }

  /** When every card is matched, every click is ignored. */
  lemma ClickAfterAllMatchedIsIgnored(s: BoardState, cardId: string)
    requires AllMatched(s.cards)
    ensures ClickStep(s, cardId) == s
  {
    if !s.isChecking && |s.flippedCards| != 2 {
      match FindCard(s.cards, cardId)
      case None =>
      case Some(i) => assert s.cards[i].isMatched;
    }
  }

  // ---------------------------------------------------------------------------
  // The component's state

  /** The state of one GameBoard component. */
  class GameBoard {
    var cards: seq<Card>
    var flippedCards: seq<Card>
    var isChecking: bool
    var gameStatus: Status
    var winner: Winner

    function State(): BoardState
      reads this
    {
      BoardState(cards, flippedCards, isChecking, gameStatus, winner)
    }

    ghost predicate Valid()
      reads this
    {
      BoardInvariant(State())
    }

    /** The initial `useState` values. */
    constructor ()
      ensures State() == BoardState([], [], false, Playing, NoWinner)
      ensures Valid()
    {
      cards := [];
      flippedCards := [];
      isChecking := false;
      gameStatus := Playing;
      winner := NoWinner;
    }

    /** The settings effect: deal `settings.numPairs` pairs and reset the board. */
    method Initialize(settings: GameSettings, catalog: seq<string>, iconRolls: seq<real>, deckRolls: seq<real>)
      requires GameUtils.CardSetRolls(settings.numPairs, catalog, iconRolls, deckRolls)
      modifies this
      ensures State() == InitialBoard(GameUtils.CardSet(settings.numPairs, catalog, iconRolls, deckRolls))
      ensures Valid()
    {
      cards := GameUtils.GenerateCardSet(settings.numPairs, catalog, iconRolls, deckRolls);
      flippedCards := [];
      isChecking := false;
      gameStatus := Playing;
      winner := NoWinner;
      GeneratedBoardInvariant(settings.numPairs, catalog, iconRolls, deckRolls);
    }

    /** handleCardClick */
    method HandleCardClick(cardId: string)
      requires Valid()
      modifies this
      ensures State() == ClickStep(old(State()), cardId)
      ensures Valid()
      ensures KeepsMatches(old(cards), cards)
    {
      ClickPreservesInvariant(State(), cardId);
      if isChecking || |flippedCards| == 2 {
        return;
      }
      var found := FindCard(cards, cardId);
      if found.None? {
        return;
      }
      var clickedCard := cards[found.value];
      if clickedCard.isFlipped || clickedCard.isMatched {
        return;
      }
      if |flippedCards| == 1 && flippedCards[0].id == cardId {
        return;
      }
      cards := FlipCard(cards, cardId);
      flippedCards := flippedCards + [clickedCard.(isFlipped := true)];
    }

    /** checkForMatch; the returned events are the callbacks it calls. */
    method CheckForMatch(currentPlayerId: int) returns (events: seq<Event>)
      requires Valid()
      modifies this
      ensures (State(), events) == CheckStep(old(State()), currentPlayerId)
      ensures Valid()
      ensures KeepsMatches(old(cards), cards)
    {
      CheckPreservesInvariant(State(), currentPlayerId);
      events := [];
      if |flippedCards| == 2 {
        isChecking := true;
        var firstCard, secondCard := flippedCards[0], flippedCards[1];
        if firstCard.pairId == secondCard.pairId {
          cards := MatchPair(cards, firstCard.pairId);
          events := [PlayerScored(currentPlayerId)];
          flippedCards := [];
          isChecking := false;
        }
      }
    }

    /** resetFlippedCards */
    method ResetFlippedCards()
      modifies this
      ensures State() == ResetStep(old(State()))
    {
      cards := UnflipSelection(cards, flippedCards);
      flippedCards := [];
      isChecking := false;
    }

    /** The timer callback scheduled by a mismatch. */
    method ResolveMismatch() returns (events: seq<Event>)
      requires Valid() && isChecking
      modifies this
      ensures (State(), events) == MismatchTimerStep(old(State()))
      ensures Valid()
      ensures KeepsMatches(old(cards), cards)
    {
      ResolveMismatchUnflipsSelection(State());
      ResetFlippedCards();
      events := [NextPlayerTurn];
    }

    /** The end-of-game effect, run with the session's current players. */
    method DetectGameEnd(players: seq<Player>)
      requires Valid()
      modifies this
      ensures State() == GameEndStep(old(State()), players)
      ensures Valid()
    {
      if |cards| > 0 && |players| > 0 && AllMatched(cards) {
        gameStatus := Finished;
        var winners := Winners(players);
        winner := if |winners| == 1 then Single(winners[0]) else Tie(winners);
      }
    }
  }
}
