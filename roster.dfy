/** The player roster that `SquidGame`'s constructor builds. */
module Roster {

  /** A player: an integer id and a position that starts on the start line. */
  datatype Player = Player(id: int, position: int := 0)

  /** `[Player(id) for id in range(1, n + 1)]`: players 1 to n in order, all
      at position 0; a count of zero or less gives an empty roster. */
  function GetPlayers(numOfPlayers: int): (r: seq<Player>)
    ensures |r| == if numOfPlayers > 0 then numOfPlayers else 0
    ensures forall i :: 0 <= i < |r| ==> r[i].id == i + 1 && r[i].position == 0
    decreases if numOfPlayers > 0 then numOfPlayers else 0
  {
    if numOfPlayers <= 0 then [] else GetPlayers(numOfPlayers - 1) + [Player(numOfPlayers)]
  }
}
