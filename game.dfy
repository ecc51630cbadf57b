/** `SquidGame`: the roster built on construction, the selection of moving
    players, and the six-round game loop over the players dict. */
module Game {
  import opened Sequences
  import opened Roster
  import opened Rounds
  import opened Properties

  /** What `random.sample` gives back: the drawn players, or the
      `ValueError` it raises for a negative count. */
  datatype Sample = Drawn(players: seq<string>) | ValueError

  class SquidGame {
    var players: seq<Player>

    constructor (numOfPlayers: int := 456)
      ensures players == GetPlayers(numOfPlayers)
    {
      players := GetPlayers(numOfPlayers);
    }

    /** `move_players`: draws `SampleSize(|players|, percentage)` players.
        `drawn` stands for what `random.sample` returned; it must be a
        sample of that size whenever the size is not negative. */
    static function MovePlayers(players: seq<string>, percentage: int, drawn: seq<string>): (r: Sample)
      requires SampleSize(|players|, percentage) >= 0 ==>
        IsSample(drawn, players, SampleSize(|players|, percentage))
      ensures r.Drawn? <==> |players| * Capped(percentage) > -100
      ensures r.Drawn? ==>
        && r.players == drawn
        && Distinct(r.players)
        && (forall x :: x in r.players ==> x in players)
        && |r.players| <= |players|
      ensures 0 <= percentage ==>
        && r.Drawn?
        && |r.players| * 100 <= |players| * Capped(percentage) < |r.players| * 100 + 100
    {
      var count := SampleSize(|players|, percentage);
      if count < 0 then ValueError
      else
        assert 0 <= percentage ==> |drawn| * 100 <= |players| * Capped(percentage) < |drawn| * 100 + 100 by {
          if 0 <= percentage {
            SampleSizeBounds(|players|, percentage);
          }
        }
        Drawn(drawn)
    }

    /** The Green-light update: `for player in moved_players: if player in
        players: players[player]["position"] += 1`. */
    static method AdvanceMoved(pos: map<string, int>, moved: seq<string>) returns (pos': map<string, int>)
      ensures pos' == Advance(pos, moved)
    {
      pos' := pos;
      for i := 0 to |moved|
        invariant pos' == Advance(pos, moved[..i])
      {
        assert moved[..i + 1][..i] == moved[..i];
        if moved[i] in pos' {
          pos' := pos'[moved[i] := pos'[moved[i]] + 1];
        }
      }
      assert moved[..|moved|] == moved;
    }

    /** The Red-light update: `for player in eliminated_players: if player
        in players: players.pop(player)`. */
    static method RemoveEliminated(keys: seq<string>, pos: map<string, int>, eliminated: seq<string>)
      returns (keys': seq<string>, pos': map<string, int>)
      ensures State(keys', pos') == PopAll(State(keys, pos), eliminated)
    {
      keys', pos' := keys, pos;
      for i := 0 to |eliminated|
        invariant State(keys', pos') == PopAll(State(keys, pos), eliminated[..i])
      {
        assert eliminated[..i + 1][..i] == eliminated[..i];
        var player := eliminated[i];
        if player in pos' {
          keys' := Without(keys', {player});
          pos' := pos' - {player};
        }
      }
      assert eliminated[..|eliminated|] == eliminated;
    }

    /** `start_game`: six rounds from the dict of players "1" to "n" (456 by
        default) at position 0, the light starting Green and alternating;
        `draws[r]` is round r's draw. Returns each round's report and the winners. */
    method StartGame(numOfPlayers: int := 456, draws: seq<seq<string>>) returns (reports: seq<Report>, winners: seq<string>)
      requires |draws| == RoundCount
      requires ValidDraws(InitialPlayers(numOfPlayers), draws)
      ensures var play := PlayRounds(InitialPlayers(numOfPlayers), draws);
        reports == play.reports && winners == Winners(play.final.keys, play.final.pos)
      ensures |reports| == RoundCount
      ensures forall r :: 0 <= r < RoundCount ==> reports[r].light == if r % 2 == 0 then Green else Red
    {
      var s0 := InitialPlayers(numOfPlayers);
      var keys, pos := s0.keys, s0.pos;
      var light := Green;
      reports := [];
      for r := 0 to RoundCount
        invariant light == LightAt(r)
        invariant PlayRounds(s0, draws[..r]) == Play(State(keys, pos), reports)
      {
        ghost var before := State(keys, pos);
        assert IsSample(draws[r], keys, SampleSize(|keys|, Percentage(light))) by {
          ValidDrawAt(s0, draws, r);
        }
        var moved: seq<string>;
        var eliminated: seq<string> := [];
        if light == Green {
          var sample := MovePlayers(keys, 80, draws[r]);
          moved := sample.players;
          pos := AdvanceMoved(pos, moved);
        } else {
          var sample := MovePlayers(keys, 5, draws[r]);
          moved := sample.players;
          eliminated := moved;
          keys, pos := RemoveEliminated(keys, pos, eliminated);
        }
        var stationary := Without(keys, Elems(moved));
        assert PlayRounds(s0, draws[..r + 1])
            == Play(State(keys, pos), reports + [Report(light, moved, stationary, eliminated)]) by {
          PlayRoundsNext(s0, draws, r);
          assert Step(before, light, draws[r]) == Round(State(keys, pos), Report(light, moved, stationary, eliminated));
        }
        reports := reports + [Report(light, moved, stationary, eliminated)];
        light := Next(light);
      }
      assert draws[..RoundCount] == draws;
      winners := Winners(keys, pos);
      PlayLength(s0, draws);
      forall r | 0 <= r < RoundCount
        ensures reports[r].light == if r % 2 == 0 then Green else Red
      {
        PlayReportAt(s0, draws, r);
        LightAtParity(r);
      }
    }
  }

  /** What a whole game comes to: three Green and three Red rounds; the
      survivors are players of the initial roster in their original order,
      each at the position given by the Green rounds they were drawn in, so
      between 0 and 3; the winners are exactly the survivors drawn in at
      least two Green rounds, in the survivors' order. */
  lemma GameOutcome(numOfPlayers: int, draws: seq<seq<string>>)
    requires |draws| == RoundCount
    requires ValidDraws(InitialPlayers(numOfPlayers), draws)
    ensures GreenRounds(RoundCount) == 3 && RoundCount - GreenRounds(RoundCount) == 3
    ensures var s0 := InitialPlayers(numOfPlayers);
      var final := PlayRounds(s0, draws).final;
      var winners := Winners(final.keys, final.pos);
      && IsSubsequence(final.keys, s0.keys)
      && (forall k :: k in final.pos ==> final.pos[k] == GreenMoves(k, draws) && 0 <= final.pos[k] <= 3)
      && (forall k :: k in winners <==> k in final.keys && GreenMoves(k, draws) >= 2)
      && IsSubsequence(winners, final.keys)
  {
    var s0 := InitialPlayers(numOfPlayers);
    var final := PlayRounds(s0, draws).final;
    GreenRoundsCount(RoundCount);
    PlayValid(s0, draws);
    forall k | k in final.pos
      ensures final.pos[k] == GreenMoves(k, draws) && 0 <= final.pos[k] <= 3
    {
      Survivor(s0, draws, k);
      GreenMovesBound(k, draws);
    }
  }
}
