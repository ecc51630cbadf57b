/** What one round and a whole game do to the players dict, proved for
    every draw that `move_players` can return. */
module Properties {
  import opened Sequences
  import opened Rounds

  /** The advancing loop adds exactly one to each drawn player that is in
      the dict, and nothing to anyone else. */
  lemma {:induction false} AdvanceAt(pos: map<string, int>, moved: seq<string>, k: string)
    requires Distinct(moved)
    ensures k in pos ==> k in Advance(pos, moved) && Advance(pos, moved)[k] == pos[k] + (if k in moved then 1 else 0)
    decreases |moved|
  {
    if moved != [] {
      var init := moved[..|moved| - 1];
      assert Distinct(init);
      assert moved == init + [moved[|moved| - 1]];
      AdvanceAt(pos, init, k);
      AdvanceKeys(pos, init);
    }
  }

  /** The elimination loop removes the drawn players from the dict and
      keeps the order of the others. */
  lemma {:induction false} PopAllRemoves(s: State, eliminated: seq<string>)
    requires Valid(s)
    ensures PopAll(s, eliminated) == State(Without(s.keys, Elems(eliminated)), s.pos - Elems(eliminated))
    decreases |eliminated|
  {
    if eliminated != [] {
      var init := eliminated[..|eliminated| - 1];
      var k := eliminated[|eliminated| - 1];
      var gone := Elems(init);
      PopAllRemoves(s, init);
      assert PopAll(s, eliminated) == Pop(State(Without(s.keys, gone), s.pos - gone), k);
      PopAfterRemoval(s, gone, k);
      assert Elems(eliminated) == gone + {k} by {
        assert eliminated == init + [k];
      }
    } else {
      assert Elems(eliminated) == {};
      WithoutNothing(s.keys, {});
      assert s.pos - {} == s.pos;
    }
  }

  /** One more `pop` after a set of keys has been removed. */
  lemma PopAfterRemoval(s: State, gone: set<string>, k: string)
    requires Valid(s)
    ensures Pop(State(Without(s.keys, gone), s.pos - gone), k)
         == State(Without(s.keys, gone + {k}), s.pos - (gone + {k}))
  {
    var keys := Without(s.keys, gone);
    WithoutWithout(s.keys, gone, {k});
    if k !in s.pos - gone {
      assert k !in keys;
      WithoutNothing(keys, {k});
    }
    assert s.pos - (gone + {k}) == (s.pos - gone) - {k};
  }

  lemma {:induction false} PopAllValid(s: State, eliminated: seq<string>)
    requires Valid(s)
    ensures Valid(PopAll(s, eliminated))
  {
    PopAllRemoves(s, eliminated);
    WithoutDistinct(s.keys, Elems(eliminated));
  }

  /** A Green round: the drawn players advance by one, everyone else keeps
      their position, nobody leaves the dict or is eliminated, and the
      moved and static lists split the players between them. */
  lemma GreenRound(s: State, moved: seq<string>)
    requires Valid(s)
    requires IsSample(moved, s.keys, SampleSize(|s.keys|, Percentage(Green)))
    ensures var round := Step(s, Green, moved);
      && round.after.keys == s.keys
      && Valid(round.after)
      && (forall k :: k in s.pos ==>
            k in round.after.pos && round.after.pos[k] == s.pos[k] + (if k in moved then 1 else 0))
      && round.report.light == Green
      && round.report.moved == moved
      && round.report.eliminated == []
      && (forall k :: k in round.report.stationary <==> k in s.keys && k !in moved)
      && IsSubsequence(round.report.stationary, s.keys)
      && |round.report.moved| + |round.report.stationary| == |s.keys|
  {
    var round := Step(s, Green, moved);
    forall k | k in s.pos
      ensures k in round.after.pos && round.after.pos[k] == s.pos[k] + (if k in moved then 1 else 0)
    {
      AdvanceAt(s.pos, moved, k);
      AdvanceKeys(s.pos, moved);
    }
    AdvanceKeys(s.pos, moved);
    WithoutIsSubsequence(s.keys, Elems(moved));
    WithoutSelection(s.keys, moved);
  }

  /** A Red round: the drawn players are the eliminated ones and exactly
      they leave the dict; the survivors keep their positions and their
      order, and they are the round's static players. */
  lemma RedRound(s: State, moved: seq<string>)
    requires Valid(s)
    requires IsSample(moved, s.keys, SampleSize(|s.keys|, Percentage(Red)))
    ensures var round := Step(s, Red, moved);
      && Valid(round.after)
      && round.report.light == Red
      && round.report.eliminated == moved
      && round.report.moved == moved
      && round.after.keys == Without(s.keys, Elems(moved))
      && (forall k :: k in round.after.pos <==> k in s.pos && k !in moved)
      && (forall k :: k in round.after.pos ==> round.after.pos[k] == s.pos[k])
      && IsSubsequence(round.after.keys, s.keys)
      && |round.after.keys| == |s.keys| - |moved|
      && round.report.stationary == round.after.keys
  {
    var after := PopAll(s, moved);
    PopAllRemoves(s, moved);
    PopAllValid(s, moved);
    WithoutIsSubsequence(s.keys, Elems(moved));
    WithoutSelection(s.keys, moved);
    WithoutNothing(after.keys, Elems(moved));
  }

  /** Both lights keep the dict well formed. */
  lemma StepValid(s: State, light: Light, moved: seq<string>)
    requires Valid(s)
    ensures Valid(Step(s, light, moved).after)
    ensures IsSubsequence(Step(s, light, moved).after.keys, s.keys)
  {
    if light == Green {
      AdvanceKeys(s.pos, moved);
    } else {
      PopAllRemoves(s, moved);
      PopAllValid(s, moved);
      WithoutIsSubsequence(s.keys, Elems(moved));
    }
    assert IsSubsequence(s.keys, s.keys) by {
      SubsequenceReflexive(s.keys);
    }
  }

  /** Advancing never adds or removes a key, even for a draw with repeats. */
  lemma {:induction false} AdvanceKeys(pos: map<string, int>, moved: seq<string>)
    ensures Advance(pos, moved).Keys == pos.Keys
    decreases |moved|
  {
    if moved != [] {
      AdvanceKeys(pos, moved[..|moved| - 1]);
    }
  }

  lemma {:induction false} SubsequenceReflexive<T>(s: seq<T>)
    ensures IsSubsequence(s, s)
  {
    if s != [] {
      SubsequenceReflexive(s[1..]);
    }
  }

  /** Playing one more round is one more `Step`. */
  lemma PlayRoundsNext(s0: State, draws: seq<seq<string>>, r: nat)
    requires r < |draws|
    ensures var before := PlayRounds(s0, draws[..r]);
      var round := Step(before.final, LightAt(r), draws[r]);
      PlayRounds(s0, draws[..r + 1]) == Play(round.after, before.reports + [round.report])
  {
    assert draws[..r + 1][..r] == draws[..r];
  }

  lemma {:induction false} PlayLength(s0: State, draws: seq<seq<string>>)
    ensures |PlayRounds(s0, draws).reports| == |draws|
    decreases |draws|
  {
    if draws != [] {
      PlayLength(s0, draws[..|draws| - 1]);
    }
  }

  /** Round `r` of a game reports what `Step` does to the dict left by the
      rounds before it, under the light of round `r`. */
  lemma {:induction false} PlayReportAt(s0: State, draws: seq<seq<string>>, r: nat)
    requires r < |draws|
    ensures |PlayRounds(s0, draws).reports| == |draws|
    ensures PlayRounds(s0, draws).reports[r]
         == Step(PlayRounds(s0, draws[..r]).final, LightAt(r), draws[r]).report
    decreases |draws|
  {
    var last := |draws| - 1;
    var init := draws[..last];
    var before := PlayRounds(s0, init);
    assert |before.reports| == last by {
      PlayLength(s0, init);
    }
    assert PlayRounds(s0, draws).reports
        == before.reports + [Step(before.final, LightAt(last), draws[last]).report];
    if r < last {
      assert before.reports[r] == Step(PlayRounds(s0, draws[..r]).final, LightAt(r), draws[r]).report by {
        PlayReportAt(s0, init, r);
        assert init[..r] == draws[..r] && init[r] == draws[r];
      }
    }
  }

  /** The draw of round `r` is a valid sample of the dict left by the
      rounds before it. */
  lemma {:induction false} ValidDrawAt(s0: State, draws: seq<seq<string>>, r: nat)
    requires ValidDraws(s0, draws) && r < |draws|
    ensures var keys := PlayRounds(s0, draws[..r]).final.keys;
      IsSample(draws[r], keys, SampleSize(|keys|, Percentage(LightAt(r))))
    decreases |draws|
  {
    var last := |draws| - 1;
    if r < last {
      var init := draws[..last];
      ValidDrawAt(s0, init, r);
      assert init[..r] == draws[..r] && init[r] == draws[r];
    }
  }

  /** Any game keeps the dict well formed, and the players left at the end
      are some of those at the start, in their original order. */
  lemma {:induction false} PlayValid(s0: State, draws: seq<seq<string>>)
    requires Valid(s0)
    ensures Valid(PlayRounds(s0, draws).final)
    ensures IsSubsequence(PlayRounds(s0, draws).final.keys, s0.keys)
    decreases |draws|
  {
    if draws == [] {
      SubsequenceReflexive(s0.keys);
    } else {
      var last := |draws| - 1;
      var before := PlayRounds(s0, draws[..last]).final;
      PlayValid(s0, draws[..last]);
      StepValid(before, LightAt(last), draws[last]);
      SubsequenceTransitive(PlayRounds(s0, draws).final.keys, before.keys, s0.keys);
    }
  }

  /** A player left after a round was in the dict before it, was not
      drawn if the light was Red, and advanced by one if drawn under Green. */
  lemma StepSurvivor(s: State, light: Light, drawn: seq<string>, k: string)
    requires Valid(s) && IsSample(drawn, s.keys, SampleSize(|s.keys|, Percentage(light)))
    requires k in Step(s, light, drawn).after.pos
    ensures k in s.pos
    ensures light == Red ==> k !in drawn
    ensures Step(s, light, drawn).after.pos[k] == s.pos[k] + (if light == Green && k in drawn then 1 else 0)
  {
    if light == Green {
      GreenRound(s, drawn);
    } else {
      RedRound(s, drawn);
    }
  }

  /** A player still in the dict at the end was there at the start and has
      advanced once for every Green round in which they were drawn. */
  lemma {:induction false} Survivor(s0: State, draws: seq<seq<string>>, k: string)
    requires Valid(s0) && ValidDraws(s0, draws)
    requires k in PlayRounds(s0, draws).final.pos
    ensures k in s0.pos
    ensures PlayRounds(s0, draws).final.pos[k] == s0.pos[k] + GreenMoves(k, draws)
    decreases |draws|
  {
    if draws != [] {
      var last := |draws| - 1;
      var init := draws[..last];
      var before := PlayRounds(s0, init).final;
      PlayValid(s0, init);
      StepSurvivor(before, LightAt(last), draws[last], k);
      Survivor(s0, init, k);
    }
  }

  /** A player still in the dict at the end was not drawn in any Red round:
      a Red draw is an elimination. */
  lemma SurvivorNotDrawnUnderRed(s0: State, draws: seq<seq<string>>, k: string, r: nat)
    requires Valid(s0) && ValidDraws(s0, draws)
    requires k in PlayRounds(s0, draws).final.pos
    requires r < |draws| && LightAt(r) == Red
    ensures k !in draws[r]
  {
    var before := PlayRounds(s0, draws[..r]).final;
    PlayShrinks(s0, draws, r + 1);
    PlayRoundsNext(s0, draws, r);
    PlayValid(s0, draws[..r]);
    ValidDrawAt(s0, draws, r);
    StepSurvivor(before, LightAt(r), draws[r], k);
  }

  /** No round adds a player to the dict. */
  lemma {:induction false} PopAllShrinks(s: State, eliminated: seq<string>)
    ensures PopAll(s, eliminated).pos.Keys <= s.pos.Keys
    decreases |eliminated|
  {
    if eliminated != [] {
      PopAllShrinks(s, eliminated[..|eliminated| - 1]);
    }
  }

  /** The players in the dict after a game are among those in it after any
      earlier round. */
  lemma {:induction false} PlayShrinks(s0: State, draws: seq<seq<string>>, m: nat)
    requires m <= |draws|
    ensures PlayRounds(s0, draws).final.pos.Keys <= PlayRounds(s0, draws[..m]).final.pos.Keys
    decreases |draws|
  {
    if m == |draws| {
      assert draws[..m] == draws;
    } else {
      var last := |draws| - 1;
      var init := draws[..last];
      var before := PlayRounds(s0, init).final;
      assert PlayRounds(s0, draws).final == Step(before, LightAt(last), draws[last]).after;
      AdvanceKeys(before.pos, draws[last]);
      PopAllShrinks(before, draws[last]);
      PlayShrinks(s0, init, m);
      assert init[..m] == draws[..m];
    }
  }

  /** Nobody is drawn in more Green rounds than there are. */
  lemma {:induction false} GreenMovesBound(k: string, draws: seq<seq<string>>)
    ensures GreenMoves(k, draws) <= GreenRounds(|draws|)
    decreases |draws|
  {
    if draws != [] {
      GreenMovesBound(k, draws[..|draws| - 1]);
    }
  }
}
