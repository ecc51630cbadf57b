/** The rules of one game of "Red Light, Green Light" as `SquidGame.start_game`
    plays them, stated as functions of the drawn players: the light sequence,
    the effect of one round on the players dict, the round's moved, static and
    eliminated lists, a whole game of rounds, and the winner filter. The
    random draw of `move_players` is an input here; `IsSample` says which
    draws `random.sample` can return. */
module Rounds {
  import opened Sequences
  import Decimal

  datatype Light = Green | Red

  /** `["Green", "Red"][(light_color == "Green")]`: Green is followed by Red
      and Red by Green. */
  function Next(light: Light): (next: Light)
    ensures next != light
  {
    if light == Green then Red else Green
  }

  /** A game lasts six rounds. */
  const RoundCount: nat := 6

  /** The light of round `r` (counting from 0): Green first, then alternating. */
  function LightAt(r: nat): Light
  {
    if r == 0 then Green else Next(LightAt(r - 1))
  }

  lemma {:induction false} LightAtParity(r: nat)
    ensures LightAt(r) == if r % 2 == 0 then Green else Red
  {
    if r > 0 {
      LightAtParity(r - 1);
    }
  }

  /** How many of the first `m` rounds have a Green light. */
  function GreenRounds(m: nat): nat
  {
    if m == 0 then 0 else GreenRounds(m - 1) + (if LightAt(m - 1) == Green then 1 else 0)
  }

  /** Green and Red rounds alternate, so in a six-round game each light is
      shown three times. */
  lemma {:induction false} GreenRoundsCount(m: nat)
    ensures GreenRounds(m) == (m + 1) / 2
    ensures m - GreenRounds(m) == m / 2
  {
    if m > 0 {
      GreenRoundsCount(m - 1);
      LightAtParity(m - 1);
    }
  }

  /** The share of players that moves: 80 percent on Green, 5 on Red. */
  function Percentage(light: Light): int
  {
    if light == Green then 80 else 5
  }

  /** `min(percentage, 100)` */
  function Capped(percentage: int): int
  {
    if percentage < 100 then percentage else 100
  }

  /** `int(num_of_players * (min(percentage, 100) / 100))`, with the float
      division replaced by integer arithmetic and `int` truncating toward
      zero. A negative result is what makes `random.sample` raise. */
  function SampleSize(numOfPlayers: nat, percentage: int): (count: int)
    ensures count < 0 <==> numOfPlayers * Capped(percentage) <= -100
  {
    var product := numOfPlayers * Capped(percentage);
    if product >= 0 then product / 100 else -((-product) / 100)
  }

  /** For a non-negative percentage the count is the percentage of the
      players rounded down, never more than all of them. */
  lemma SampleSizeBounds(numOfPlayers: nat, percentage: int)
    requires 0 <= percentage
    ensures var count := SampleSize(numOfPlayers, percentage);
      0 <= count <= numOfPlayers &&
      count * 100 <= numOfPlayers * Capped(percentage) < count * 100 + 100
  {
    var product := numOfPlayers * Capped(percentage);
    assert 0 <= product <= numOfPlayers * 100 by {
      MulMonotone(numOfPlayers, 0, Capped(percentage));
      MulMonotone(numOfPlayers, Capped(percentage), 100);
    }
    assert SampleSize(numOfPlayers, percentage) == product / 100;
  }

  /** With ten players, a Green round moves 8 of them and a Red round none;
      50 percent of ten is at most 5. */
  lemma TenPlayers()
    ensures SampleSize(10, Percentage(Green)) == 8
    ensures SampleSize(10, Percentage(Red)) == 0
    ensures SampleSize(10, 50) <= 5
  {
  }

  lemma MulMonotone(n: nat, a: int, b: int)
    requires a <= b
    ensures n * a <= n * b
  {
  }

  /** What `random.sample(population, count)` can return: `count` distinct
      members of the population, in any order. */
  predicate IsSample(drawn: seq<string>, population: seq<string>, count: int)
  {
    |drawn| == count && Distinct(drawn) && forall x :: x in drawn ==> x in population
  }

  /** The players dict of `start_game`: its keys in insertion order and
      each key's position. */
  datatype State = State(keys: seq<string>, pos: map<string, int>)

  /** A dict has each key once, and `keys` lists exactly the keys of `pos`. */
  ghost predicate Valid(s: State)
  {
    Distinct(s.keys) && forall k :: k in s.pos <==> k in s.keys
  }

  /** `[str(player_id) for player_id in range(1, n + 1)]` */
  function Ids(numOfPlayers: int): (ids: seq<string>)
    ensures |ids| == if numOfPlayers > 0 then numOfPlayers else 0
    ensures forall i :: 0 <= i < |ids| ==> ids[i] == Decimal.Digits(i + 1)
    decreases if numOfPlayers > 0 then numOfPlayers else 0
  {
    if numOfPlayers <= 0 then [] else Ids(numOfPlayers - 1) + [Decimal.Digits(numOfPlayers)]
  }

  lemma IdsDistinct(numOfPlayers: int)
    ensures Distinct(Ids(numOfPlayers))
  {
    var ids := Ids(numOfPlayers);
    forall i, j | 0 <= i < j < |ids|
      ensures ids[i] != ids[j]
    {
      Decimal.DigitsInjective(i + 1, j + 1);
    }
  }

  /** The dict `start_game` begins with: keys "1" to "n" in order, every
      player on the start line. */
  function InitialPlayers(numOfPlayers: int): (s: State)
    ensures Valid(s)
    ensures |s.keys| == if numOfPlayers > 0 then numOfPlayers else 0
    ensures forall i :: 0 <= i < |s.keys| ==> s.keys[i] == Decimal.Digits(i + 1)
    ensures forall k :: k in s.pos ==> s.pos[k] == 0
  {
    IdsDistinct(numOfPlayers);
    var ids := Ids(numOfPlayers);
    State(ids, map k | k in ids :: 0)
  }

  /** `for player in moved_players: if player in players:
      players[player]["position"] += 1`, one player after the other. */
  function Advance(pos: map<string, int>, moved: seq<string>): map<string, int>
    decreases |moved|
  {
    if moved == [] then pos
    else
      var p := Advance(pos, moved[..|moved| - 1]);
      var k := moved[|moved| - 1];
      if k in p then p[k := p[k] + 1] else p
  }

  /** `if player in players: players.pop(player)`: the key leaves the dict,
      the other keys keep their order. */
  function Pop(s: State, k: string): State
  {
    if k in s.pos then State(Without(s.keys, {k}), s.pos - {k}) else s
  }

  /** The elimination loop: `Pop` for each drawn player in turn. */
  function PopAll(s: State, eliminated: seq<string>): State
    decreases |eliminated|
  {
    if eliminated == [] then s
    else Pop(PopAll(s, eliminated[..|eliminated| - 1]), eliminated[|eliminated| - 1])
  }

  /** What one round reports: its light and its moved, static and
      eliminated players. */
  datatype Report = Report(light: Light, moved: seq<string>, stationary: seq<string>, eliminated: seq<string>)

  datatype Round = Round(after: State, report: Report)

  /** One round with the drawn players `moved`: on Green they advance, on
      Red they are eliminated; static players are the keys left afterwards
      that did not move. */
  function Step(s: State, light: Light, moved: seq<string>): Round
  {
    var after := if light == Green then State(s.keys, Advance(s.pos, moved)) else PopAll(s, moved);
    var eliminated := if light == Green then [] else moved;
    Round(after, Report(light, moved, Without(after.keys, Elems(moved)), eliminated))
  }

  datatype Play = Play(final: State, reports: seq<Report>)

  /** The rounds played with `draws[r]` as round r's draw, from state `s0`. */
  function PlayRounds(s0: State, draws: seq<seq<string>>): Play
    decreases |draws|
  {
    if draws == [] then Play(s0, [])
    else
      var last := |draws| - 1;
      var before := PlayRounds(s0, draws[..last]);
      var round := Step(before.final, LightAt(last), draws[last]);
      Play(round.after, before.reports + [round.report])
  }

  /** Every round's draw is one that `move_players` can return for the
      players still in the dict and the round's light. */
  predicate ValidDraws(s0: State, draws: seq<seq<string>>)
    decreases |draws|
  {
    draws == [] ||
    var last := |draws| - 1;
    var keys := PlayRounds(s0, draws[..last]).final.keys;
    ValidDraws(s0, draws[..last]) && IsSample(draws[last], keys, SampleSize(|keys|, Percentage(LightAt(last))))
  }

  /** `{k: v for k, v in players.items() if v["position"] > 1}`, as its keys. */
  function Winners(keys: seq<string>, pos: map<string, int>): (w: seq<string>)
    ensures forall k :: k in w <==> k in keys && k in pos && pos[k] > 1
    ensures IsSubsequence(w, keys)
  {
    if keys == [] then []
    else if keys[0] in pos && pos[keys[0]] > 1 then [keys[0]] + Winners(keys[1..], pos)
    else Winners(keys[1..], pos)
  }

  /** The number of Green rounds in which player `k` was drawn. */
  function GreenMoves(k: string, draws: seq<seq<string>>): nat
    decreases |draws|
  {
    if draws == [] then 0
    else
      var last := |draws| - 1;
      GreenMoves(k, draws[..last]) + (if LightAt(last) == Green && k in draws[last] then 1 else 0)
  }
}
