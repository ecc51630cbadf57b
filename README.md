# Red Light, Green Light — a verified model of `squid_game.py`

This project models the round engine of the "Red Light, Green Light" game in
`squid_game.py`, and proves what one game does to its players.

- `SquidGame` builds a roster of `Player`s on construction.
- `move_players` draws a percentage (capped at 100) of a list of players with
  `random.sample`.
- `start_game` keeps a dict from the ids `"1"`..`"n"` to positions, all
  starting at 0, and plays six rounds. The light starts Green and alternates.
  On Green, 80% of the players are drawn and each moves one step forward. On
  Red, 5% are drawn and removed from the dict. Each round yields its moved,
  static and eliminated players. After the last round the winners are the
  players left whose position is above 1.

The random draw is an input. `Rounds.IsSample` says which draws
`random.sample` may return: the required number of distinct players from the
list, in any order. `Rounds.ValidDraws` requires that of every round's draw,
against the dict left by the rounds before it. Every property below holds for
every such sequence of draws.

Files and modules:

- `decimal.dfy` (`Decimal`): `str` of a positive id. `Parse` inverts it, so
  distinct ids give distinct dict keys.
- `sequences.dfy` (`Sequences`): duplicate-free sequences, order-preserving
  filtering (`Without`) and subsequences.
- `roster.dfy` (`Roster`): `Player` and `_get_players`.
- `rounds.dfy` (`Rounds`): the game's rules as functions. They cover the
  light sequence, the sample size, the dict (`State`: keys in insertion order
  plus a position map), one round (`Step`), a whole game (`PlayRounds`) and
  the winner filter.
- `properties.dfy` (`Properties`): lemmas about one round and a whole game.
- `game.dfy` (`Game`): the `SquidGame` class. Its `StartGame` method plays
  the six rounds imperatively: it updates the key sequence and position map
  in place, one drawn player at a time. It is proved equal to `PlayRounds`.
  `GameOutcome` collects the end-of-game facts.

The model follows `squid_game.py` as written:

- A player count of zero or less gives an empty roster and an empty dict
  (`range(1, n + 1)` is empty, squid_game.py:20 and :34), and then six rounds
  with nobody in them.
- An eliminated player is removed from the dict with `pop` (squid_game.py:65);
  no player carries an elimination flag.
- The game always plays six rounds (squid_game.py:41), whether or not any
  player is left.
- The static players are computed after the round's update
  (squid_game.py:67-70). On Red this makes them exactly the survivors.

## Model

| member | source | states |
|---|---|---|
| `Roster.GetPlayers` | squid_game.py:9-20 | `n` players (none for `n <= 0`) with ids `1..n` in order, all at position 0; a `Player` (the datatype `Roster.Player`) is an id and a position that defaults to 0 |
| `Game.SquidGame.constructor` | squid_game.py:16-17 | the new game's roster is `GetPlayers(numOfPlayers)`, 456 players by default |
| `Decimal.Digits` | squid_game.py:33 | `str(id)` is a non-empty numeral of decimal digits with no leading zero |
| `Decimal.ParseDigits` | squid_game.py:33 | reading the numeral back gives the id |
| `Decimal.DigitsInjective` | squid_game.py:32-35 | two ids have the same key exactly when they are equal |
| `Rounds.IdsDistinct` | squid_game.py:32-35 | the initial keys `"1".."n"` are pairwise distinct |
| `Rounds.InitialPlayers` | squid_game.py:32-35 | the initial dict is well formed, its keys are `str(1)..str(n)` in order, and every position is 0 |
| `Rounds.Next` | squid_game.py:82 | the next light is always the other one |
| `Rounds.LightAtParity` | squid_game.py:37-82 | round `r` is Green when `r` is even and Red when it is odd |
| `Rounds.GreenRoundsCount` | squid_game.py:41 | of `m` rounds, `(m+1)/2` are Green and `m/2` are Red, so 3 and 3 in a game |
| `Rounds.SampleSize` | squid_game.py:95-97 | the count is negative, so `random.sample` raises, exactly when `n * min(p,100) <= -100` |
| `Rounds.SampleSizeBounds` | squid_game.py:95-97 | for `p >= 0` the count is `n * min(p,100) / 100` rounded down, between 0 and `n` |
| `Rounds.TenPlayers` | test_squid_game.py:98-100 | of 10 players, 8 move on Green and 0 on Red, and 50% is at most 5 |
| `Game.SquidGame.MovePlayers` | squid_game.py:93-98 | for `p >= 0` it draws exactly the count above; the drawn players are distinct, all in the list and at most its length; a `ValueError` comes exactly when the count is negative |
| `Sequences.Without` | squid_game.py:67-70 | the comprehension keeps exactly the keys not in the list and is no longer than the input |
| `Sequences.WithoutIsSubsequence` | squid_game.py:67-70 | the comprehension keeps the dict's order |
| `Sequences.WithoutSelection` | squid_game.py:67-70 | removing `d` distinct members of a duplicate-free list leaves `len - d` of them |
| `Properties.AdvanceAt` | squid_game.py:51-54 | each drawn player in the dict gains exactly 1, every other player keeps their position |
| `Properties.AdvanceKeys` | squid_game.py:51-54 | the Green update never adds or removes a key |
| `Properties.PopAllRemoves` | squid_game.py:62-65 | the Red update removes exactly the drawn keys and keeps the others in order with their positions |
| `Properties.PopAfterRemoval` | squid_game.py:63-65 | one more `pop` removes one more key, or nothing if the key is gone |
| `Properties.PopAllShrinks` | squid_game.py:62-65 | the Red update never adds a key |
| `Properties.GreenRound` | squid_game.py:46-70 | on Green, drawn players gain 1, others keep their position, no key leaves, nothing is eliminated, static players are the non-moved keys in dict order, and `len(moved) + len(static)` is the player count |
| `Properties.RedRound` | squid_game.py:56-70 | on Red, eliminated equals moved, exactly those keys leave, survivors keep positions and order, `len` drops by the draw size, and static equals the survivors |
| `Properties.StepValid` | squid_game.py:43-70 | any round keeps the dict well formed, and its keys after the round are a subsequence of those before |
| `Properties.PlayLength` | squid_game.py:41 | a game yields one report per round |
| `Properties.PlayReportAt` | squid_game.py:41-82 | report `r` is round `r`'s step, under the light of round `r`, on the dict left by the earlier rounds |
| `Properties.ValidDrawAt` | squid_game.py:47-59 | every round's draw is a valid sample of the players then in the dict |
| `Properties.PlayValid` | squid_game.py:41-65 | the dict stays well formed, and the survivors are a subsequence of the initial keys |
| `Properties.StepSurvivor` | squid_game.py:46-65 | a player left after a round was there before it, was not drawn on Red, and gained 1 only if drawn on Green |
| `Properties.Survivor` | squid_game.py:41-65 | a survivor's final position is the initial one plus the number of Green rounds that drew them |
| `Properties.SurvivorNotDrawnUnderRed` | squid_game.py:56-65 | a survivor was drawn in no Red round |
| `Properties.PlayShrinks` | squid_game.py:41-65 | the keys at the end are among the keys after any earlier round |
| `Properties.GreenMovesBound` | squid_game.py:41-54 | no player is drawn in more Green rounds than the game has |
| `Rounds.LightAt` | squid_game.py:37-82 | the light of round `r`: Green first, then `Next` of the previous one; `LightAtParity` states it is Green exactly on even rounds |
| `Rounds.Percentage` | squid_game.py:46-59 | 80 on Green and 5 on Red; `TenPlayers` states what these give for ten players |
| `Rounds.Capped` | squid_game.py:96 | `min(percentage, 100)`; `SampleSize` and `SampleSizeBounds` state the count it leads to |
| `Rounds.Ids` | squid_game.py:32-35 | the ids `str(1)..str(n)` in order, none for `n <= 0`; `IdsDistinct` states they are pairwise distinct |
| `Rounds.IsSample` | squid_game.py:98 | what `random.sample(players, count)` can return: `count` distinct members of the list; `MovePlayers` states the draw it accepts |
| `Rounds.ValidDraws` | squid_game.py:41-59 | every round's draw is a sample of the dict left by the rounds before it, at that round's percentage; `ValidDrawAt` states it round by round |
| `Rounds.Advance` | squid_game.py:51-54 | the Green update, one drawn player at a time; `AdvanceAt` and `AdvanceKeys` state its effect |
| `Rounds.Pop` | squid_game.py:64-65 | the guarded `pop` of one key; `PopAfterRemoval` states its effect |
| `Rounds.PopAll` | squid_game.py:62-65 | the Red update, one drawn player at a time; `PopAllRemoves` and `PopAllShrinks` state its effect |
| `Rounds.Step` | squid_game.py:43-70 | one round's update and its moved, static and eliminated lists; `GreenRound`, `RedRound` and `StepValid` state them |
| `Rounds.PlayRounds` | squid_game.py:41-82 | the rounds played in turn, each on the dict the previous one left; `StartGame` is proved equal to it and `GameOutcome` states what it comes to |
| `Rounds.GreenMoves` | squid_game.py:46-54 | the number of Green rounds that drew a player; `Survivor` states it is the survivor's position and `GreenMovesBound` that it is at most the number of Green rounds |
| `Rounds.Winners` | squid_game.py:86-89 | the winners are exactly the keys with position above 1, in dict order |
| `Game.SquidGame.AdvanceMoved` | squid_game.py:51-54 | the in-place Green loop computes `Advance` of the positions |
| `Game.SquidGame.RemoveEliminated` | squid_game.py:62-65 | the in-place Red loop computes `PopAll` of the dict |
| `Game.SquidGame.StartGame` | squid_game.py:22-91 | with 456 players by default, the six-round loop returns exactly the reports of `PlayRounds` from the initial dict and the winner filter of its final dict; lights go Green, Red, Green, … |
| `Game.GameOutcome` | squid_game.py:41-89 | in a game: 3 Green and 3 Red rounds; survivors are a subsequence of `"1".."n"`; each survivor's position is their number of Green draws, between 0 and 3; winners are exactly the survivors drawn in at least 2 Green rounds, in survivor order |

## Left out

- Rounds.SampleSize: uses integer arithmetic `n * min(p,100) / 100` instead of `int(n * (p / 100))` in floating point. For the 80 and 5 the game uses, the two agree for every player count below 2^50. For other percentages the float result can be one lower (29% of 100 gives 28).
- Which players `random.sample` picks, and with what probability, is not modelled. A draw is any valid sample, given as input.
- The timing code is not modelled: `time()`, the commented-out `sleep(5)` and the commented-out 30-second `while` loop. The fixed six-round loop is modelled.
- The console output is not modelled: the `print` calls, comma-joining and the `"None"` text. `StartGame` returns the per-round reports and the winners instead.
- The `__main__` entry point is not modelled.
- The inner `{"position": …}` dict of each player is modelled as the position itself.
- `SquidGame.players`, built by the constructor, is not used by `start_game`, so the model does not connect the two.
- The `Player` class with `eliminated`, `move()` and `eliminate()`, and the `SquidGame` API of `test_squid_game.py`, are not modelled. `squid_game.py` does not define them.
