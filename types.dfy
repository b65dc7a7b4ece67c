/**
 * The records threaded through every component of the game. A card's icon
 * component is represented only by its icon name.
 */
module Types {
  import opened Strings

  /** A card on the board. */
  datatype Card = Card(
    id: string,
    pairId: string,
    iconName: string,
    isFlipped: bool,
    isMatched: bool)

  /** A player of the current game. */
  datatype Player = Player(id: int, name: string, score: int)

  /** What the setup form submits to start a game. */
  datatype GameSettings = GameSettings(numPlayers: int, numPairs: int, playerNames: seq<string>)

  /** The placeholder name of the player at 0-based position `i`: `Player ${i + 1}`. */
  function DefaultPlayerName(i: nat): (name: string)
    ensures |name| > 7 && name[..7] == "Player "
  {
    "Player " + NatToString(i + 1)
  }

  /**
   * `names[i] || \`Player ${i + 1}\``: the name at position `i`, or the
   * placeholder when it is missing or empty. Both the session and the setup
   * form fill names this way.
   */
  function NameOrDefault(names: seq<string>, i: nat): (name: string)
    ensures name != ""
  {
    if i < |names| && names[i] != "" then names[i] else DefaultPlayerName(i)
  }

  /** A placeholder name is never blank: it starts with `P`. */
  lemma DefaultPlayerNameNotBlank(i: nat)
    ensures Trim(DefaultPlayerName(i)) != ""
  {
    var name := DefaultPlayerName(i);
    assert name[0] == 'P' && !IsWhitespace(name[0]);
    TrimEmptyIffBlank(name);
  }
}
