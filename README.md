# MatchUp Memory: a verified model of the game engine

MatchUp Memory is a turn-based memory game for one to four players. A
setup form chooses the players and the number of card pairs. Then a
generator deals a shuffled deck with two cards per icon. Players take turns
turning over two cards. A pair that matches stays face up and gives the
current player a point. A pair that does not match is turned back face down
after a pause, and the turn passes to the next player. When every card is
matched, the game ends. The top scorer wins, or the top scorers tie.

This project models the four parts that make up the game's logic:

- `game_utils.dfy` (`GameUtils`) is the deck generator. It holds the
  Fisher–Yates shuffle as an in-place method on an `array`, which is proved
  against the specification function `Shuffled`. It also holds
  `generateCardSet`, as a method with its push loop proved against
  `CardSet`, and the grid column table `getGridColsClass`.
- `game_board.dfy` (`Board`) is the match engine. Its handlers are pure
  steps on a `BoardState`: `ClickStep`, `CheckStep`, `ResetStep`,
  `MismatchTimerStep` and `GameEndStep`. The class `GameBoard` holds the
  component's state fields, and its methods perform the same updates the
  handlers do. The board calls back into the session with
  `onPlayerScored` and `onNextPlayerTurn`; the model returns these calls as
  `Event` values. The timer that defers the reset after a mismatch is the
  explicit step `ResolveMismatch`.
- `page.dfy` (`GamePage`) is the session controller `MatchUpMemoryPage`. It
  creates the players, applies the board's events to scores and turns, and
  handles "play again" while remembering the last-used player count and
  names.
- `game_setup.dfy` (`Setup`) is the setup form `GameSetup`. It covers the
  initial name list, the resize of the name list when the player count
  changes, editing one name, and submission. Submission validates in a fixed
  order and normalises the name list.

There are also three support modules. `wrappers.dfy` defines `Option` and
`Result`. `strings.dfy` defines decimal rendering of numbers, as used in
template strings, and `String.prototype.trim` with the ECMAScript white
space set. `types.dfy` defines the card, player and settings records of
`src/types/index.ts:3-22`. In the model, a card holds its icon by name.

Randomness is a parameter. Each shuffle takes a sequence of draws `u` with
`0 <= u < 1`, one per loop step, standing for the values `Math.random()`
returns. The swap index is `floor(u * (i + 1))`, exactly as in the source,
and a lemma shows it always lies in `[0, i]`.

The deck generator follows the code. The game's description says that a
catalog too short for `numPairs` is filled with fallback icons, but the code
has no such fallback. `slice(0, numPairs)` keeps at most the whole
catalog, so the deck then has `2 × catalog size` cards (`CardSetSize`). The
`HelpCircle` fallback only replaces a missing icon component. The
`unknown-<index>` fallback only replaces an empty name (`IconNameAt`).

## Model

| member | source | states |
|---|---|---|
| Strings.NatToString | src/lib/game-utils.ts:25 | the decimal text of a number in a template string is non-empty and all digits, and is one character exactly for numbers below 10 |
| Strings.NatToStringInjective | src/lib/game-utils.ts:25 | different numbers have different decimal texts |
| Strings.TrimStart | src/components/game-setup.tsx:83 | removes exactly the leading white space: the result is a suffix, starts with a non-white-space character or is empty, and everything removed is white space |
| Strings.TrimEnd | src/components/game-setup.tsx:83 | the same for trailing white space |
| Strings.Trim | src/components/game-setup.tsx:83 | definition of `trim`; properties in `TrimStart`, `TrimEnd` and `TrimEmptyIffBlank` |
| Strings.TrimEmptyIffBlank | src/components/game-setup.tsx:83 | `name.trim() === ''` holds exactly when every character of the name is white space |
| Types.Card | src/types/index.ts:3-10 | definition of a card record, holding its icon by name; properties in `CardSetFaceDown`, `CardSetPairsShareIcon` and `BoardInvariant` |
| Types.Player | src/types/index.ts:12-16 | definition of a player record; properties in `StartCreatesPlayers` and `ScoreOnlyThatPlayer` |
| Types.GameSettings | src/types/index.ts:18-22 | definition of the settings record; properties in `AcceptedSettingsAreWellFormed` |
| Types.DefaultPlayerName | src/app/page.tsx:25 | the placeholder `Player i+1` is longer than `"Player "` and starts with it |
| Types.NameOrDefault | src/app/page.tsx:25 | the given name, or `Player i+1` when it is missing or empty, is never empty |
| Types.DefaultPlayerNameNotBlank | src/components/game-setup.tsx:91 | a placeholder name is never blank after trimming |
| GameUtils.DistinctPermutation | src/lib/game-utils.ts:21 | a permutation of a list without repeats has no repeats |
| GameUtils.SwapIndex | src/lib/game-utils.ts:10 | for a draw in `[0, 1)` the swap index `floor(u * (i + 1))` lies in `[0, i]`, so every swap is in bounds |
| GameUtils.SwapPermutes | src/lib/game-utils.ts:11 | one swap keeps the multiset of elements |
| GameUtils.ShuffleStepsPermute | src/lib/game-utils.ts:9-12 | after any number of loop steps the array holds a permutation of the input |
| GameUtils.Shuffled | src/lib/game-utils.ts:7-14 | definition of the shuffle on values; properties in `ShuffledPermutes`, `ShuffledCommutesWithMap` and `ShuffleArray` |
| GameUtils.ShuffledPermutes | src/lib/game-utils.ts:7-14 | the shuffle returns a list of the same length and the same multiset as its input |
| GameUtils.ShuffledCommutesWithMap | src/lib/game-utils.ts:7-14 | the positions the shuffle produces do not depend on the elements: shuffling a mapped list is mapping the shuffled list |
| GameUtils.ShuffleArray | src/lib/game-utils.ts:7-14 | the in-place loop on a fresh copy of the input returns the specified shuffle, a permutation of the input; the input is a value and is left as it was |
| GameUtils.PairId | src/lib/game-utils.ts:25 | definition of `pair-<index>`; properties in `PairIdInjective` |
| GameUtils.CardId | src/lib/game-utils.ts:30-38 | definition of `<pairId>-a` and `<pairId>-b`; properties in `CardIdInjective` |
| GameUtils.PairedCards | src/lib/game-utils.ts:23-45 | definition of the unshuffled deck the `forEach` pushes; properties in `PairedCardsGrow`, `PushCardPairs`, `PairedCardsDistinctIds` and `PairIdSeqCounts` |
| GameUtils.SliceEnd | src/lib/game-utils.ts:21 | the end index `slice(0, k)` stops at is never past the list; properties in `CardSetSize` |
| GameUtils.SelectedIcons | src/lib/game-utils.ts:21 | definition of the shuffled, cut catalog; properties in `CardSetSize` and `CardSetDistinctIcons` |
| GameUtils.IconNameAt | src/lib/game-utils.ts:27 | definition of the icon name with its `unknown-<index>` fallback; properties in `CardSetPairsShareIcon` and `CardSetDistinctIcons` |
| GameUtils.CardSet | src/lib/game-utils.ts:16-48 | definition of the dealt deck; properties in `GenerateCardSet`, `CardSetSize`, `CardSetFaceDown`, `CardSetUniqueIds`, `CardSetPairsTwice`, `CardSetPairsShareIcon` and `CardSetDistinctIcons` |
| GameUtils.PairedCardsGrow | src/lib/game-utils.ts:24-45 | one `forEach` round appends card `pair-k-a` and then card `pair-k-b`, both with pair `pair-k` and the icon's name, face down |
| GameUtils.PushCardPairs | src/lib/game-utils.ts:23-45 | the push loop builds exactly the unshuffled deck |
| GameUtils.GenerateCardSet | src/lib/game-utils.ts:16-48 | shuffle the catalog, keep `numPairs` icons, push the pairs, shuffle the deck: the result is `CardSet` |
| GameUtils.PairIdInjective | src/lib/game-utils.ts:25 | different pair indices give different pair ids |
| GameUtils.CardIdInjective | src/lib/game-utils.ts:30-38 | card ids `pair-k-a` and `pair-k-b` determine the pair index and the side |
| GameUtils.PairedCardsDistinctIds | src/lib/game-utils.ts:24-45 | the unshuffled deck has pairwise distinct card ids |
| GameUtils.CardSetMembers | src/lib/game-utils.ts:47 | every dealt card is one of the unshuffled cards |
| GameUtils.CardSetSize | src/lib/game-utils.ts:21-47 | the deck has `2 × min(numPairs, catalog size)` cards; a short catalog yields fewer cards, with no fallback icons |
| GameUtils.CardSetFaceDown | src/lib/game-utils.ts:29-44 | every dealt card is face down and unmatched, and its id is its pair id plus `-a` or `-b` |
| GameUtils.CardSetUniqueIds | src/lib/game-utils.ts:24-47 | all card ids of the deck are distinct |
| GameUtils.PairIdSeqCounts | src/lib/game-utils.ts:24-45 | in the pair ids of the unshuffled deck of `m` icons, `pair-k` occurs twice for `k < m` and never otherwise |
| GameUtils.CardSetPairsTwice | src/lib/game-utils.ts:24-47 | every pair id of the deck is that of a selected icon, and each such pair id lies on exactly two cards |
| GameUtils.CardSetPairsShareIcon | src/lib/game-utils.ts:27-44 | two cards with the same pair id show the same icon |
| GameUtils.CardSetDistinctIcons | src/lib/game-utils.ts:21-27 | with a catalog of distinct non-empty names, cards of different pairs show different icons |
| GameUtils.GetGridColsClass | src/lib/game-utils.ts:50-66 | definition of the column table; properties in `GridColsFollowLayouts` |
| GameUtils.GridColsFollowLayouts | src/lib/game-utils.ts:50-66 | `getGridColsClass` is total, returns the column class of the first documented layout that is large enough, and returns ten columns above 50 cards |
| Board.AllMatched | src/components/game-board.tsx:98 | definition of `cards.every(card => card.isMatched)`; properties in `GameEndDetection` and `ClickAfterAllMatchedIsIgnored` |
| Board.FlipCard | src/components/game-board.tsx:116-120 | definition of the map that turns the clicked card face up; properties in `FlipCardOnlyAt` and `ClickFlipsOnlyThatCard` |
| Board.MatchPair | src/components/game-board.tsx:61-65 | definition of the map that marks a pair matched; properties in `MatchResolves` |
| Board.UnflipSelection | src/components/game-board.tsx:43-49 | definition of the map that turns the selected unmatched cards face down; properties in `ResolveMismatchUnflipsSelection` |
| Board.FindCard | src/components/game-board.tsx:111 | `cards.find` by id gives the first card with that id, or none when no card has it |
| Board.MaxScore | src/components/game-board.tsx:100 | `Math.max` of the scores is at least every score and is some player's score |
| Board.WithScore | src/components/game-board.tsx:101 | the filter keeps exactly the players with that score, each entry as often as it occurs in the input, and never grows the list |
| Board.WithScoreSingleton | src/components/game-board.tsx:101-102 | the filter has exactly one entry precisely when exactly one position of the input holds the score |
| Board.InitialBoard | src/components/game-board.tsx:31-40 | definition of the board the settings effect sets up; properties in `InitialBoardInvariant` and `GeneratedBoardInvariant` |
| Board.ClickStep | src/components/game-board.tsx:108-122 | definition of `handleCardClick`; properties in `ClickChangesIffClickable`, `ClickFlipsOnlyThatCard`, `ClickPreservesInvariant` and `ClickAfterAllMatchedIsIgnored` |
| Board.CheckStep | src/components/game-board.tsx:54-89 | definition of `checkForMatch`; properties in `CheckNeedsTwoCards`, `MatchResolves`, `MismatchDefers` and `CheckPreservesInvariant` |
| Board.ResetStep | src/components/game-board.tsx:42-52 | definition of `resetFlippedCards`; properties in `ResolveMismatchUnflipsSelection` and `StepsKeepMatches` |
| Board.MismatchTimerStep | src/components/game-board.tsx:83-86 | definition of the timer callback; properties in `ResolveMismatchUnflipsSelection` |
| Board.GameEndStep | src/components/game-board.tsx:97-105 | definition of the end-of-game effect; properties in `GameEndDetection` |
| Board.BoardInvariant | src/components/game-board.tsx:22-26 | definition of the board invariant over the component's state; established by `InitialBoardInvariant`, kept by `ClickPreservesInvariant` and `CheckPreservesInvariant`, and used by `ResolveMismatchUnflipsSelection` |
| Board.SelectedCardsAreFaceUp | src/components/game-board.tsx:116-121 | under the board invariant a selected card is face up and unmatched |
| Board.InitialBoardInvariant | src/components/game-board.tsx:31-40 | initialising from distinct face-down cards gives an empty selection, no pending check, status playing, no winner, and the board invariant |
| Board.GeneratedBoardInvariant | src/components/game-board.tsx:33 | a deck dealt by `generateCardSet` starts a board that satisfies the invariant |
| Board.ClickChangesIffClickable | src/components/game-board.tsx:108-122 | a click changes the board exactly when no check is pending, fewer than two cards are selected, and the card exists face down and unmatched; the other clicks, including one on the selected card, change nothing |
| Board.FlipCardOnlyAt | src/components/game-board.tsx:116-120 | with unique ids, flipping by id changes only that card |
| Board.ClickFlipsOnlyThatCard | src/components/game-board.tsx:116-121 | an accepted click turns exactly that card face up, changes no other card, and appends it to a selection that then holds at most two cards |
| Board.SelectPreservesInvariant | src/components/game-board.tsx:116-121 | selecting a face-down unmatched card keeps the board invariant |
| Board.ClickPreservesInvariant | src/components/game-board.tsx:108-122 | every click keeps the board invariant |
| Board.CheckNeedsTwoCards | src/components/game-board.tsx:55 | with other than two cards selected, the check does nothing and calls nothing |
| Board.SelectionOfOnePair | src/components/game-board.tsx:59-75 | under the board invariant, when both selected cards share a pair, every face-up unmatched card belongs to that pair |
| Board.MatchResolves | src/components/game-board.tsx:59-75 | on a match every card of that pair becomes matched and face up and every other card is unchanged; the current player scores exactly once; the selection clears with no pending check; the turn is not passed |
| Board.MismatchDefers | src/components/game-board.tsx:76-87 | on a mismatch the board only starts checking and calls nothing yet; the invariant holds |
| Board.CheckPreservesInvariant | src/components/game-board.tsx:54-89 | the check keeps the board invariant |
| Board.ResolveMismatchUnflipsSelection | src/components/game-board.tsx:83-86 | the deferred step turns exactly the selected unmatched cards face down and changes no other card; it clears the selection and the check and passes the turn once; afterwards a card is face up exactly when it is matched |
| Board.StepsKeepMatches | src/components/game-board.tsx:45 | no step unmatches a card or changes a card's id, pair or icon |
| Board.Winners | src/components/game-board.tsx:100-101 | definition of the players holding the top score; properties in `WinnersAreTopScorers` and `DecidedWinner` |
| Board.WinnerOf | src/components/game-board.tsx:102 | definition of `winners.length === 1 ? winners[0] : winners`; properties in `DecidedWinner` |
| Board.WinnersAreTopScorers | src/components/game-board.tsx:100-101 | the winners are exactly the players with the top score, and there is at least one |
| Board.DecidedWinner | src/components/game-board.tsx:100-102 | when exactly one position holds the top score, the winner is that player alone; otherwise it is a tie of at least two entries holding every top-scoring entry as often as it occurs |
| Board.GameEndDetection | src/components/game-board.tsx:97-105 | with a non-empty deck, at least one player and every card matched, the game finishes; the winner is the player at the one position holding the top score when there is one, and otherwise a tie of at least two entries holding every top-scoring entry as often as it occurs; in every other case nothing changes |
| Board.ClickAfterAllMatchedIsIgnored | src/components/game-board.tsx:112 | once every card is matched, clicks are ignored |
| Board.GameBoard.constructor | src/components/game-board.tsx:22-26 | the initial state: no cards, no selection, not checking, playing, no winner |
| Board.GameBoard.Initialize | src/components/game-board.tsx:31-40 | the settings effect deals a deck and resets the board; the invariant holds |
| Board.GameBoard.HandleCardClick | src/components/game-board.tsx:108-122 | performs the click step, keeps the invariant and keeps matches |
| Board.GameBoard.CheckForMatch | src/components/game-board.tsx:54-89 | performs the check step and returns its callback calls; keeps the invariant and matches |
| Board.GameBoard.ResetFlippedCards | src/components/game-board.tsx:42-52 | performs the reset step |
| Board.GameBoard.ResolveMismatch | src/components/game-board.tsx:83-86 | the timer callback: reset, then one turn change; keeps the invariant and matches |
| Board.GameBoard.DetectGameEnd | src/components/game-board.tsx:97-105 | performs the end-of-game step and keeps the invariant |
| GamePage.SessionInvariant | src/app/page.tsx:13-31 | definition of the session invariant: before a game no players and player 1 current; during one, players `1..n` in order with non-negative scores and a current id in `[1, n]`; established by `StartCreatesPlayers`, kept by `ApplyEvent` |
| GamePage.InitialPlayers | src/app/page.tsx:23-27 | definition of the created players; properties in `StartCreatesPlayers` |
| GamePage.StartCreatesPlayers | src/app/page.tsx:22-31 | a start creates players `1..n` in order with score 0, each named by the settings or `Player i+1` when that name is missing or empty; the total score is 0 and the session invariant holds with player 1 current |
| GamePage.ScorePlayer | src/app/page.tsx:49-53 | definition of the score map; properties in `ScoreOnlyThatPlayer` and `ScoreAddsAtMostOne` |
| GamePage.ScoreAddsAtMostOne | src/app/page.tsx:49-53 | with consecutive ids, a score raises the total by one exactly when the id is among them |
| GamePage.ScoreOnlyThatPlayer | src/app/page.tsx:48-54 | a score adds exactly one point to the player with that id and changes nothing else: same length and order, same ids and names, other scores unchanged |
| GamePage.NextPlayerId | src/app/page.tsx:58-60 | definition of the next player's id; properties in `NextPlayerRoundRobin` and `TurnsCycle` |
| GamePage.NextPlayerRoundRobin | src/app/page.tsx:56-60 | with ids `1..n` the next player is `(current % n) + 1`, always in `[1, n]`, and always 1 for a single player |
| GamePage.NextTurnWraps | src/app/page.tsx:58-60 | from player `v` of `n` the turn goes to `v + 1`, and from `n` to 1 |
| GamePage.AdvanceTurnsWithinRound | src/app/page.tsx:58-60 | after `k <= n` turn changes from player `c` the turn is at `c + k`, wrapping past `n` |
| GamePage.TurnsCycle | src/app/page.tsx:56-60 | within `n` turn changes every player gets the turn, and after `n` changes the turn is back where it started |
| GamePage.ApplyEvent | src/app/page.tsx:96-97 | the page's reaction to one board callback keeps the session invariant |
| GamePage.ApplyEvents | src/app/page.tsx:96-97 | the reaction to a series of callbacks keeps the session invariant |
| GamePage.MatchScoresCurrentPlayer | src/components/game-board.tsx:59-75 | a found pair, passed through the page's handlers, gives the current player exactly one point, changes no other player, raises the total by one and keeps the turn |
| GamePage.MismatchKeepsScores | src/components/game-board.tsx:76-87 | a mismatch, from the check through the deferred reset and the page's handlers, changes no score and passes the turn exactly once |
| GamePage.MatchUpMemoryPage.constructor | src/app/page.tsx:13-20 | no settings, no players, player 1 current, one last-used player named `Player 1` |
| GamePage.MatchUpMemoryPage.InitializeGameStates | src/app/page.tsx:22-31 | creates the players and makes player 1 current |
| GamePage.MatchUpMemoryPage.HandleStartGame | src/app/page.tsx:33-39 | stores the settings, creates the players, makes player 1 current, records the player count and names as last used; the session invariant holds |
| GamePage.MatchUpMemoryPage.HandlePlayAgain | src/app/page.tsx:41-46 | clears settings and players and makes player 1 current, leaving the last-used values untouched |
| GamePage.MatchUpMemoryPage.HandlePlayerScored | src/app/page.tsx:48-54 | applies the score map; no score decreases; the invariant holds |
| GamePage.MatchUpMemoryPage.HandleNextPlayerTurn | src/app/page.tsx:56-64 | does nothing without settings or players, and otherwise makes `(current % n) + 1` current, always in `[1, n]` |
| GamePage.MatchUpMemoryPage.HandleBoardEvent | src/app/page.tsx:92-99 | dispatches a board callback to its handler, with the effect `ApplyEvent` states |
| Setup.PlayerOptions | src/components/game-setup.tsx:26 | definition of the player counts on offer; properties in `OfferedOptionsPassChecks` |
| Setup.PairOptions | src/components/game-setup.tsx:27-38 | definition of the pair counts on offer with their captions; properties in `PairOptionValues`, `OfferedOptionsPassChecks` and `OfferedDecksHaveLayouts` |
| Setup.DefaultNumPairs | src/components/game-setup.tsx:42 | definition of the starting pair count; properties in `OfferedOptionsPassChecks` and `GameSetup.constructor` |
| Setup.IsPairOption | src/components/game-setup.tsx:79 | definition of `pairOptions.find(p => p.value === numPairs)` succeeding; properties in `PairOptionValues` and `SubmitChecksInOrder` |
| Setup.SomeNameBlank | src/components/game-setup.tsx:83 | definition of `playerNames.some(name => name.trim() === '')`; properties in `BlankIffInvisible`, `NoBlankIffAllVisible` and `SubmitChecksInOrder` |
| Setup.InitialCount | src/components/game-setup.tsx:41-45 | the initial count with its fallback to one player is never zero; it is a positive count exactly when the given count is not negative, and keeps a positive given count |
| Setup.InitialCountStable | src/components/game-setup.tsx:41-45 | feeding the form's count back in as the initial count gives the same count |
| Setup.InitialFormHasNames | src/components/game-setup.tsx:44-51 | unless the given count is negative, the form opens with at least one name field, and no name it shows is empty |
| Setup.ResizeNames | src/components/game-setup.tsx:59-62 | resizing gives exactly `n` names (none for negative `n`), all non-empty; a non-empty name stays at its index, and a missing or empty one becomes `Player i+1` |
| Setup.SubmittedNames | src/components/game-setup.tsx:88-93 | the submitted list has exactly `n` names: the entered list cut to `n`, or the entered list padded with `Player i+1` |
| Setup.PairOptionValues | src/components/game-setup.tsx:27-38 | the pair counts on offer are exactly 4, 6, 8, 10, 12, 15, 18, 21, 24 and 25 |
| Setup.OfferedOptionsPassChecks | src/components/game-setup.tsx:26-43 | every offered player count and pair count, and the default of 8 pairs, passes the count checks |
| Setup.OfferedDecksHaveLayouts | src/components/game-setup.tsx:27-38 | each offered pair count deals a deck of one documented grid size, and the board uses that grid's columns for it |
| Setup.BlankIffInvisible | src/components/game-setup.tsx:83 | a name is blank after trimming exactly when it has no character outside the white space set |
| Setup.NoBlankIffAllVisible | src/components/game-setup.tsx:83 | no name is blank exactly when every name has a visible character |
| Setup.SubmitOutcome | src/components/game-setup.tsx:73-96 | definition of the submission's outcome; properties in `SubmitChecksInOrder`, `AcceptedSettingsAreWellFormed` and `ReopenedFormResubmitsSameGame` |
| Setup.SubmitChecksInOrder | src/components/game-setup.tsx:75-86 | a bad player count is reported first; a pair count outside the offered set only when the player count is fine; a blank name only when both counts are fine; the submission is accepted exactly when all three checks pass |
| Setup.AcceptedSettingsAreWellFormed | src/components/game-setup.tsx:88-95 | an accepted submission has one to four players, an offered pair count, exactly one name per player, none blank, with the entered names in order and `Player i+1` for missing ones |
| Setup.ResizeIdempotent | src/components/game-setup.tsx:59-62 | resizing twice to the same length is resizing once |
| Setup.ResizeKeepsCompleteList | src/components/game-setup.tsx:56-63 | a list of the right length with no empty name is left unchanged by the resize |
| Setup.ReopenedFormResubmitsSameGame | src/components/game-setup.tsx:42-52 | reopening the form with the last-used count and names of an accepted game shows those names again, and resubmitting with the same pair count gives the same settings |
| Setup.InitialPlayerNames | src/components/game-setup.tsx:45-52 | the initial loop builds one name per initial player (one when no count is given), each the given name or `Player i+1` |
| Setup.GameSetup.constructor | src/components/game-setup.tsx:41-63 | the initial count, 8 pairs and the initial names; the resize effect on mount changes nothing |
| Setup.GameSetup.SetNumPlayers | src/components/game-setup.tsx:56-63 | choosing a count stores it; the resize effect, keyed on the count, resizes the name list only when the count changed, and choosing the current count again leaves every name as typed, blank ones included |
| Setup.GameSetup.SetNumPairs | src/components/game-setup.tsx:131 | choosing a pair count stores it |
| Setup.GameSetup.HandlePlayerNameChange | src/components/game-setup.tsx:65-71 | replaces only the entry at that index; the length and the other entries are unchanged |
| Setup.GameSetup.HandleSubmit | src/components/game-setup.tsx:73-96 | validation and the padding loop return exactly the specified outcome: an error, or the settings passed to `onStartGame` |

## Left out

- Rendering is not modelled: JSX, CSS classes, the win dialog and the loading text.
- Notifications are not modelled. Each `toast` call is dropped, and a rejected submission is the `SetupError` that chose its message.
- `console.warn` on catalog exhaustion is not modelled.
- `player-scores.tsx` and `memory-card.tsx` are display components and are not modelled. The click guard in the card duplicates the board's guard.
- The icon catalog is a parameter: a sequence of icon names. The icon components and `HelpCircle` have no counterpart, because a card holds only its icon name.
- `Math.random` is replaced by injected draws in `[0, 1)`. The product `u * (i + 1)` is computed on exact reals, not on floating point. Nothing is claimed about the distribution of shuffles.
- Timing is not modelled: the 1200 ms `setTimeout`, React's batching and effect scheduling, and stale closures. Each handler and effect is one atomic step. The mismatch timer is the `ResolveMismatch` step, which a caller runs while the check is pending. The model has no cancellation, and neither does the code.
- The effect that runs `checkForMatch` once two cards are selected is not modelled on its own. A caller invokes `CheckForMatch` after a click; `CheckNeedsTwoCards` shows the check does nothing otherwise.
- Numbers are mathematical integers. Fractional or `NaN` player and pair counts from `Number(value)` are not modelled; the selects only offer integer values.
- GamePage.MatchUpMemoryPage.InitializeGameStates: requires at least one player, because the start-of-game notification reads the first player; with none, the source throws.
- Setup.GameSetup.HandlePlayerNameChange: requires an index inside the list, because an input exists only for each entry. JavaScript's extension of an array on an out-of-range assignment is not modelled.
- Setup.GameSetup.SetNumPlayers: requires the form's invariant, one name per player, which the constructor establishes and every handler keeps; when the count is chosen again unchanged, the list keeps its length only because of it.
- Board.GameBoard.ResolveMismatch: requires a pending check, because the timer is only scheduled by a mismatch.
- Board.GameBoard.HandleCardClick: like the other board handlers, requires the board invariant, which `Initialize` establishes and every handler keeps.
- GamePage.MatchUpMemoryPage.HandleNextPlayerTurn: like `HandlePlayerScored` and `HandleBoardEvent`, requires the session invariant, which the constructor establishes and every handler keeps; without it the source's `players[nextPlayerIndex]` could be undefined.
