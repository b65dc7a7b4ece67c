/**
 * The setup form: the player count, the pair count and the player names a
 * game starts with. The form validates a submission in a fixed order (player
 * count, pair count, names) and hands on a name list of exactly the chosen
 * length.
 */
module Setup {
  import opened Wrappers
  import opened Strings
  import opened Types
  import GameUtils

  /** The player counts the form offers. */
  const PlayerOptions: seq<int> := [1, 2, 3, 4]

  /** A pair count the form offers, with the caption shown for it. */
  datatype PairOption = PairOption(value: int, caption: string)

  const PairOptions: seq<PairOption> := [
    PairOption(4, "4 Pairs (Easy)"),
    PairOption(6, "6 Pairs"),
    PairOption(8, "8 Pairs (Medium)"),
    PairOption(10, "10 Pairs"),
    PairOption(12, "12 Pairs (Hard)"),
    PairOption(15, "15 Pairs"),
    PairOption(18, "18 Pairs (Expert)"),
    PairOption(21, "21 Pairs (Challenging)"),
    PairOption(24, "24 Pairs (Extreme)"),
    PairOption(25, "25 Pairs (Ultimate)")
  ]

  /** The pair count the form starts with. */
  const DefaultNumPairs: int := 8

  /** Why a submission was refused; each is shown to the user as a notification. */
  datatype SetupError = InvalidPlayerNumber | InvalidPairsNumber | InvalidPlayerName

  /** `pairOptions.find(p => p.value === n)` finds something. */
  predicate IsPairOption(n: int) {
    exists k :: 0 <= k < |PairOptions| && PairOptions[k].value == n
  }

  /** `playerNames.some(name => name.trim() === '')` */
  predicate SomeNameBlank(names: seq<string>) {
    exists k :: 0 <= k < |names| && Trim(names[k]) == ""
  }

  /**
   * `initialNumPlayers || 1`: an absent or zero count means one player. The
   * result is never zero; it is a positive count exactly when the given count
   * is not negative, and a positive given count is kept as it is.
   */
  function InitialCount(initialNumPlayers: Option<int>): (count: int)
    ensures count != 0
    ensures count >= 1 <==> initialNumPlayers.GetOr(0) >= 0
    ensures initialNumPlayers.GetOr(0) >= 1 ==> count == initialNumPlayers.GetOr(0)
  {
    match initialNumPlayers
    case None => 1
    case Some(k) => if k == 0 then 1 else k
  }

  /** Feeding the form's count back in as the initial count gives it again. */
  lemma InitialCountStable(initialNumPlayers: Option<int>)
    ensures InitialCount(Some(InitialCount(initialNumPlayers))) == InitialCount(initialNumPlayers)
  {
  }

  /**
   * Unless the given count is negative, the form opens with at least one
   * name field, and every name it shows is non-empty.
   */
  lemma InitialFormHasNames(initialNumPlayers: Option<int>, initialPlayerNames: seq<string>)
    requires initialNumPlayers.GetOr(0) >= 0
    ensures var names := ResizeNames(initialPlayerNames, InitialCount(initialNumPlayers));
      |names| >= 1 && forall k :: 0 <= k < |names| ==> names[k] != ""
  {
  }

  /**
   * The name list resized to `n` entries (the effect run whenever the player
   * count changes): a non-empty name stays at its index, a missing or empty
   * one becomes `Player i+1`. A negative length gives an empty list.
   */
  function ResizeNames(prev: seq<string>, n: int): (r: seq<string>)
    ensures |r| == if n > 0 then n else 0
    ensures forall i :: 0 <= i < |r| ==> r[i] != ""
    ensures forall i :: 0 <= i < |r| && i < |prev| && prev[i] != "" ==> r[i] == prev[i]
    ensures forall i :: 0 <= i < |r| && (i >= |prev| || prev[i] == "") ==> r[i] == DefaultPlayerName(i)
  {
    var len := if n > 0 then n else 0;
    seq(len, i requires 0 <= i < len => NameOrDefault(prev, i))
  }

  /**
   * The names an accepted submission passes on: the list cut to `n` entries,
   * or padded with `Player i+1` up to `n` entries.
   */
  function SubmittedNames(names: seq<string>, n: nat): (r: seq<string>)
    ensures |r| == n
    ensures n <= |names| ==> r == names[..n]
    ensures n > |names| ==> r[..|names|] == names && forall i :: |names| <= i < n ==> r[i] == DefaultPlayerName(i)
  {
    seq(n, i requires 0 <= i < n => if i < |names| then names[i] else DefaultPlayerName(i))
  }

  /** What submitting the form yields: the first failing check, or the settings handed to the game. */
  function SubmitOutcome(numPlayers: int, numPairs: int, playerNames: seq<string>): Result<GameSettings, SetupError> {
    if numPlayers < 1 || numPlayers > 4 then Err(InvalidPlayerNumber)
    else if !IsPairOption(numPairs) then Err(InvalidPairsNumber)
    else if SomeNameBlank(playerNames) then Err(InvalidPlayerName)
    else Ok(GameSettings(numPlayers, numPairs, SubmittedNames(playerNames, numPlayers)))
  }

  // ---------------------------------------------------------------------------
  // Lemmas

  /** The pair counts on offer are exactly these ten. */
  lemma PairOptionValues(n: int)
    ensures IsPairOption(n) <==> n in {4, 6, 8, 10, 12, 15, 18, 21, 24, 25}
  {
    if n in {4, 6, 8, 10, 12, 15, 18, 21, 24, 25} {
      var k :| 0 <= k < |PairOptions| && PairOptions[k].value == n by {
        if n == 4 { assert PairOptions[0].value == n; }
        else if n == 6 { assert PairOptions[1].value == n; }
        else if n == 8 { assert PairOptions[2].value == n; }
        else if n == 10 { assert PairOptions[3].value == n; }
        else if n == 12 { assert PairOptions[4].value == n; }
        else if n == 15 { assert PairOptions[5].value == n; }
        else if n == 18 { assert PairOptions[6].value == n; }
        else if n == 21 { assert PairOptions[7].value == n; }
        else if n == 24 { assert PairOptions[8].value == n; }
        else { assert PairOptions[9].value == n; }
      }
    }
  }

  /** Every option the form offers passes the count checks; so does the default. */
  lemma OfferedOptionsPassChecks()
    ensures forall k :: 0 <= k < |PlayerOptions| ==> 1 <= PlayerOptions[k] <= 4
    ensures forall k :: 0 <= k < |PairOptions| ==> IsPairOption(PairOptions[k].value)
    ensures IsPairOption(DefaultNumPairs)
  {
    PairOptionValues(DefaultNumPairs);
  }

  /** The name has a character that is not white space. */
  predicate HasVisibleChar(name: string) {
    exists c :: c in name && !IsWhitespace(c)
  }

  /** A name is blank after trimming exactly when it has no visible character. */
  lemma BlankIffInvisible(name: string)
    ensures Trim(name) == "" <==> !HasVisibleChar(name)
  {
    TrimEmptyIffBlank(name);
    if !HasVisibleChar(name) {
      forall k | 0 <= k < |name| ensures IsWhitespace(name[k]) {
        assert name[k] in name;
      }
    }
  }

  lemma NoBlankIffAllVisible(names: seq<string>)
    ensures !SomeNameBlank(names) <==> forall k :: 0 <= k < |names| ==> HasVisibleChar(names[k])
  {
    forall k | 0 <= k < |names| ensures Trim(names[k]) == "" <==> !HasVisibleChar(names[k]) {
      BlankIffInvisible(names[k]);
    }
  }

  /**
   * Each offered pair count deals a deck of one of the documented grid sizes,
   * and the board picks that grid's column class for it.
   */
  lemma OfferedDecksHaveLayouts()
    ensures |GameUtils.Layouts| == |PairOptions|
    ensures forall k :: 0 <= k < |PairOptions| ==>
      GameUtils.Layouts[k].numCards == 2 * PairOptions[k].value &&
      GameUtils.GetGridColsClass(2 * PairOptions[k].value) == GameUtils.ColsClass(GameUtils.Layouts[k].cols)
  {
    forall k | 0 <= k < |PairOptions|
      ensures GameUtils.GetGridColsClass(2 * PairOptions[k].value) == GameUtils.ColsClass(GameUtils.Layouts[k].cols)
    {
      GameUtils.GridColsFollowLayouts(2 * PairOptions[k].value);
    }
  }

  /**
   * The checks run in order and the first failure wins: a bad player count is
   * reported whatever else is wrong; a bad pair count only when the player
   * count is fine; a blank name (one that is all white space) only when both
   * counts are fine; and the submission is accepted exactly when all three
   * checks pass.
   */
  lemma SubmitChecksInOrder(numPlayers: int, numPairs: int, playerNames: seq<string>)
    ensures var r := SubmitOutcome(numPlayers, numPairs, playerNames);
      var countOk := 1 <= numPlayers <= 4;
      var pairsOk := numPairs in {4, 6, 8, 10, 12, 15, 18, 21, 24, 25};
      var namesOk := forall k :: 0 <= k < |playerNames| ==> HasVisibleChar(playerNames[k]);
      (r == Err(InvalidPlayerNumber) <==> !countOk) &&
      (r == Err(InvalidPairsNumber) <==> countOk && !pairsOk) &&
      (r == Err(InvalidPlayerName) <==> countOk && pairsOk && !namesOk) &&
      (r.Ok? <==> countOk && pairsOk && namesOk)
  {
    PairOptionValues(numPairs);
    NoBlankIffAllVisible(playerNames);
  }

  /**
   * An accepted submission is a well-formed game: one to four players, an
   * offered pair count, exactly one name per player and none of them blank.
   * The names entered are passed on in order; missing ones are `Player i+1`.
   */
  lemma AcceptedSettingsAreWellFormed(numPlayers: int, numPairs: int, playerNames: seq<string>)
    requires SubmitOutcome(numPlayers, numPairs, playerNames).Ok?
    ensures var s := SubmitOutcome(numPlayers, numPairs, playerNames).value;
      s.numPlayers == numPlayers && s.numPairs == numPairs &&
      1 <= s.numPlayers <= 4 &&
      s.numPairs in {4, 6, 8, 10, 12, 15, 18, 21, 24, 25} &&
      |s.playerNames| == s.numPlayers &&
      (forall k :: 0 <= k < |s.playerNames| ==> Trim(s.playerNames[k]) != "") &&
      (forall k :: 0 <= k < |s.playerNames| && k < |playerNames| ==> s.playerNames[k] == playerNames[k]) &&
      (forall k :: |playerNames| <= k < |s.playerNames| ==> s.playerNames[k] == DefaultPlayerName(k))
  {
    PairOptionValues(numPairs);
    var s := SubmitOutcome(numPlayers, numPairs, playerNames).value;
    forall k | 0 <= k < |s.playerNames| ensures Trim(s.playerNames[k]) != "" {
      if k >= |playerNames| {
        DefaultPlayerNameNotBlank(k);
      }
    }
  }

  /** Resizing twice to the same length is resizing once. */
  lemma ResizeIdempotent(prev: seq<string>, n: int)
    ensures ResizeNames(ResizeNames(prev, n), n) == ResizeNames(prev, n)
  {
  }

  /** A list of the right length with no empty entry is left as it is by the resize. */
  lemma ResizeKeepsCompleteList(names: seq<string>, n: int)
    requires |names| == n && forall k :: 0 <= k < |names| ==> names[k] != ""
    ensures ResizeNames(names, n) == names
  {
  }

  /**
   * Reopening the form with the settings of an accepted game (the page keeps
   * them as the last-used count and names) shows the same names again, and
   * submitting it unchanged with the same pair count starts the same game.
   */
  lemma ReopenedFormResubmitsSameGame(numPlayers: int, numPairs: int, playerNames: seq<string>)
    requires SubmitOutcome(numPlayers, numPairs, playerNames).Ok?
    ensures var s := SubmitOutcome(numPlayers, numPairs, playerNames).value;
      var reopened := ResizeNames(s.playerNames, InitialCount(Some(s.numPlayers)));
      reopened == s.playerNames &&
      SubmitOutcome(InitialCount(Some(s.numPlayers)), s.numPairs, reopened) == Ok(s)
  {
    AcceptedSettingsAreWellFormed(numPlayers, numPairs, playerNames);
    var s := SubmitOutcome(numPlayers, numPairs, playerNames).value;
    assert s.numPlayers >= 1;
    assert Trim("") == "";
    ResizeKeepsCompleteList(s.playerNames, s.numPlayers);
    assert !SomeNameBlank(s.playerNames);
    assert SubmittedNames(s.playerNames, s.numPlayers) == s.playerNames;
  }

  // ---------------------------------------------------------------------------
  // The form's state

  /** The initial name list: `initialNumPlayers || 1` entries, each the given name or `Player i+1`. */
  method InitialPlayerNames(initialNumPlayers: Option<int>, initialPlayerNames: Option<seq<string>>)
    returns (names: seq<string>)
    ensures names == ResizeNames(initialPlayerNames.GetOr([]), InitialCount(initialNumPlayers))
  {
    var count := InitialCount(initialNumPlayers);
    var given := initialPlayerNames.GetOr([]);
    ghost var target := ResizeNames(given, count);
    names := [];
    var i := 0;
    while i < count
      invariant 0 <= i && (count > 0 ==> i <= count) && (count <= 0 ==> i == 0)
      invariant names == target[..i]
    {
      names := names + [NameOrDefault(given, i)];
      i := i + 1;
    }
  }

  class GameSetup {
    var numPlayers: int
    var numPairs: int
    var playerNames: seq<string>

    /** The name list always has one entry per player, once the resize effect has run. */
    ghost predicate Valid()
      reads this
    {
      |playerNames| == if numPlayers > 0 then numPlayers else 0
    }

    /** The initial state, after the resize effect has run once on mount (it changes nothing). */
    constructor (initialNumPlayers: Option<int>, initialPlayerNames: Option<seq<string>>)
      ensures numPlayers == InitialCount(initialNumPlayers) && numPairs == DefaultNumPairs
      ensures playerNames == ResizeNames(initialPlayerNames.GetOr([]), InitialCount(initialNumPlayers))
      ensures Valid()
    {
      var names := InitialPlayerNames(initialNumPlayers, initialPlayerNames);
      numPlayers := InitialCount(initialNumPlayers);
      numPairs := DefaultNumPairs;
      ResizeIdempotent(initialPlayerNames.GetOr([]), InitialCount(initialNumPlayers));
      playerNames := ResizeNames(names, InitialCount(initialNumPlayers));
    }

    /**
     * Choosing a player count. The resize effect is keyed on the count, so it
     * runs only when the count actually changes; choosing the current count
     * again leaves every name as typed, blank ones included.
     */
    method SetNumPlayers(n: int)
      requires Valid()
      modifies this`numPlayers, this`playerNames
      ensures numPlayers == n
      ensures old(numPlayers) != n ==> playerNames == ResizeNames(old(playerNames), n)
      ensures old(numPlayers) == n ==> playerNames == old(playerNames)
      ensures Valid()
    {
      if n != numPlayers {
        numPlayers := n;
        playerNames := ResizeNames(playerNames, numPlayers);
      }
    }

    /** Choosing a pair count. */
    method SetNumPairs(n: int)
      modifies this`numPairs
      ensures numPairs == n
    {
      numPairs := n;
    }

    /** Editing the name of player `index + 1`: only that entry changes. */
    method HandlePlayerNameChange(index: int, name: string)
      requires Valid() && 0 <= index < |playerNames|
      modifies this`playerNames
      ensures |playerNames| == |old(playerNames)| && playerNames[index] == name
      ensures forall k :: 0 <= k < |playerNames| && k != index ==> playerNames[k] == old(playerNames)[k]
      ensures Valid()
    {
      var newNames := playerNames;
      newNames := newNames[index := name];
      playerNames := newNames;
    }

    /** Submitting the form: the first failing check, or the settings passed to `onStartGame`. */
    method HandleSubmit() returns (outcome: Result<GameSettings, SetupError>)
      ensures outcome == SubmitOutcome(numPlayers, numPairs, playerNames)
    {
      if numPlayers < 1 || numPlayers > 4 {
        return Err(InvalidPlayerNumber);
      }
      if !IsPairOption(numPairs) {
        return Err(InvalidPairsNumber);
      }
      if SomeNameBlank(playerNames) {
        return Err(InvalidPlayerName);
      }
      var kept := if numPlayers < |playerNames| then numPlayers else |playerNames|;
      var finalPlayerNames := playerNames[..kept];
      ghost var target := SubmittedNames(playerNames, numPlayers);
      var i := |finalPlayerNames|;
      while i < numPlayers
        invariant kept <= i <= numPlayers
        invariant finalPlayerNames == target[..i]
      {
        finalPlayerNames := finalPlayerNames + [DefaultPlayerName(i)];
        i := i + 1;
      }
      assert finalPlayerNames == target;
      outcome := Ok(GameSettings(numPlayers, numPairs, finalPlayerNames));
    }
  }
}
