/**
 * Running per-move statistics over a set of games: for every move index the
 * total error, total time and number of samples, and the two averages.
 *
 * `Stats` is the value of the five parallel lists; the functions over it
 * specify `_updateOneMove` and the loop of `update`, and the class
 * `MoveStatistics` keeps the lists as fields and updates them in place.
 */
module MoveStats {
  import opened Wrappers
  import opened Game

  /** The five parallel lists of a `MoveStatistics`. */
  datatype Stats = Stats(totalError: seq<real>, totalTime: seq<real>, totalMoves: seq<int>,
                         avgError: seq<real>, avgTime: seq<real>)
  {
    /** All five lists have one entry per move index seen. */
    predicate Aligned() {
      |totalError| == |avgError| && |totalTime| == |avgError| && |totalMoves| == |avgError| && |avgTime| == |avgError|
    }

    /** Every index seen has a positive count, and its averages are its totals over its count. */
    predicate Consistent() {
      Aligned() &&
      forall k :: 0 <= k < |avgError| ==>
        totalMoves[k] >= 1 &&
        avgError[k] == totalError[k] / totalMoves[k] as real &&
        avgTime[k] == totalTime[k] / totalMoves[k] as real
    }
  }

  function EmptyStats(): Stats {
    Stats([], [], [], [], [])
  }

  /**
   * `_updateOneMove` on values: a negative index is refused; a seen index
   * gains the error, the time and `u` samples and gets its averages
   * recomputed (a count of zero makes the division fail after the totals
   * have changed); an unseen index appends a fresh entry at the end.
   */
  function OneMoveUpdate(s: Stats, moveNum: int, time: real, error: real, u: int): (r: (Stats, Outcome))
    requires s.Aligned()
    ensures r.0.Aligned()
    ensures |r.0.avgError| == if moveNum >= |s.avgError| then |s.avgError| + 1 else |s.avgError|
    ensures r.1.Fail? <==> moveNum < 0 || (moveNum < |s.avgError| && s.totalMoves[moveNum] + u == 0)
    ensures r.1.Fail? ==> r.1.error == if moveNum < 0 then ValueError else ZeroDivisionError
    ensures moveNum < 0 ==> r.0 == s
  {
    if moveNum < 0 then (s, Fail(ValueError))
    else if moveNum < |s.avgError| then
      var t := s.(totalError := s.totalError[moveNum := s.totalError[moveNum] + error],
                  totalTime := s.totalTime[moveNum := s.totalTime[moveNum] + time],
                  totalMoves := s.totalMoves[moveNum := s.totalMoves[moveNum] + u]);
      var count := t.totalMoves[moveNum];
      if count == 0 then (t, Fail(ZeroDivisionError))
      else
        (t.(avgError := t.avgError[moveNum := t.totalError[moveNum] / count as real],
            avgTime := t.avgTime[moveNum := t.totalTime[moveNum] / count as real]), Pass)
    else
      (Stats(s.totalError + [error], s.totalTime + [time], s.totalMoves + [1], s.avgError + [error], s.avgTime + [time]), Pass)
  }

  /** Dividing and multiplying back by a non-zero count gives the total. */
  lemma DivTimes(total: real, count: real)
    requires count != 0.0
    ensures (total / count) * count == total
  {
  }

  /** On consistent statistics every average times its count is its total. */
  lemma ConsistentAverages(s: Stats, k: nat)
    requires s.Consistent() && k < |s.avgError|
    ensures s.avgError[k] * s.totalMoves[k] as real == s.totalError[k]
    ensures s.avgTime[k] * s.totalMoves[k] as real == s.totalTime[k]
  {
    DivTimes(s.totalError[k], s.totalMoves[k] as real);
    DivTimes(s.totalTime[k], s.totalMoves[k] as real);
  }

  /**
   * The loop of `update` from index `i` on: index and time are multiplied by
   * `u`, the pairs of the two lists are visited up to the shorter one, and
   * the first failure stops the loop.
   */
  function UpdateFrom(s: Stats, times: seq<real>, errors: seq<real>, u: int, i: nat): (r: (Stats, Outcome))
    requires s.Aligned()
    ensures r.0.Aligned()
    decreases |times| - i
  {
    if i >= |times| || i >= |errors| then (s, Pass)
    else
      var step := OneMoveUpdate(s, u * i, u as real * times[i], errors[i], u);
      if step.1.Fail? then step else UpdateFrom(step.0, times, errors, u, i + 1)
  }

  /** The number of index pairs `update` visits. */
  function Visited(times: seq<real>, errors: seq<real>): nat {
    if |times| < |errors| then |times| else |errors|
  }

  /**
   * `t` is `s` with the first `m` moves of a game added, index by index:
   * those indices gain the move's error, time and one sample, the list grows
   * to cover them, and the other indices keep their totals and averages.
   */
  predicate AddedFrom(s: Stats, t: Stats, times: seq<real>, errors: seq<real>, m: nat)
    requires s.Aligned() && t.Aligned() && m <= Visited(times, errors)
  {
    |t.avgError| == (if m <= |s.avgError| then |s.avgError| else m) &&
    forall k :: 0 <= k < |t.avgError| ==>
      t.totalError[k] == (if k < |s.avgError| then s.totalError[k] else 0.0) + (if k < m then errors[k] else 0.0) &&
      t.totalTime[k] == (if k < |s.avgError| then s.totalTime[k] else 0.0) + (if k < m then times[k] else 0.0) &&
      t.totalMoves[k] == (if k < |s.avgError| then s.totalMoves[k] else 0) + (if k < m then 1 else 0) &&
      (m <= k ==> t.avgError[k] == s.avgError[k] && t.avgTime[k] == s.avgTime[k])
  }

  /** One more added move keeps the statistics consistent and extends the added prefix by one. */
  lemma AddOneMove(s: Stats, t: Stats, times: seq<real>, errors: seq<real>, m: nat)
    requires s.Consistent() && t.Consistent() && m < Visited(times, errors)
    requires AddedFrom(s, t, times, errors, m)
    ensures OneMoveUpdate(t, 1 * m, 1 as real * times[m], errors[m], 1).1 == Pass
    ensures OneMoveUpdate(t, 1 * m, 1 as real * times[m], errors[m], 1).0.Consistent()
    ensures AddedFrom(s, OneMoveUpdate(t, 1 * m, 1 as real * times[m], errors[m], 1).0, times, errors, m + 1)
  {
    assert OneMoveUpdate(t, 1 * m, 1 as real * times[m], errors[m], 1) == OneMoveUpdate(t, m, times[m], errors[m], 1);
    AddKeepsConsistent(t, m, times[m], errors[m]);
    var r := OneMoveUpdate(t, m, times[m], errors[m], 1).0;
    if m < |t.avgError| {
      OneMoveAtSeen(t, m, times[m], errors[m], 1);
    } else {
      assert |t.avgError| == m;
    }
    assert forall k :: 0 <= k < |r.avgError| && k != m ==>
      r.totalError[k] == t.totalError[k] && r.totalTime[k] == t.totalTime[k] && r.totalMoves[k] == t.totalMoves[k] &&
      r.avgError[k] == t.avgError[k] && r.avgTime[k] == t.avgTime[k];
  }

  /** A move added at a seen index or the next new one keeps consistent statistics consistent, and succeeds. */
  lemma AddKeepsConsistent(t: Stats, n: nat, time: real, error: real)
    requires t.Consistent() && n <= |t.avgError|
    ensures OneMoveUpdate(t, n, time, error, 1).1 == Pass
    ensures OneMoveUpdate(t, n, time, error, 1).0.Consistent()
  {
    var r := OneMoveUpdate(t, n, time, error, 1).0;
    forall k | 0 <= k < |r.avgError|
      ensures r.totalMoves[k] >= 1
      ensures r.avgError[k] == r.totalError[k] / r.totalMoves[k] as real
      ensures r.avgTime[k] == r.totalTime[k] / r.totalMoves[k] as real
    {
      if k != n {
        assert r.totalMoves[k] == t.totalMoves[k] && r.totalError[k] == t.totalError[k] && r.totalTime[k] == t.totalTime[k];
        assert r.avgError[k] == t.avgError[k] && r.avgTime[k] == t.avgTime[k];
        SameMean(t.avgError[k], t.totalError[k], t.totalMoves[k], r.avgError[k], r.totalError[k], r.totalMoves[k]);
        SameMean(t.avgTime[k], t.totalTime[k], t.totalMoves[k], r.avgTime[k], r.totalTime[k], r.totalMoves[k]);
      } else if n == |t.avgError| {
        assert r.totalMoves[k] == 1 && r.avgError[k] == error == r.totalError[k] && r.avgTime[k] == time == r.totalTime[k];
        SameMean(error, error, 1, r.avgError[k], r.totalError[k], r.totalMoves[k]);
        SameMean(time, time, 1, r.avgTime[k], r.totalTime[k], r.totalMoves[k]);
      } else {
        var count := t.totalMoves[k] + 1;
        assert r.totalMoves[k] == count >= 2;
        assert r.avgError[k] == r.totalError[k] / count as real;
        assert r.avgTime[k] == r.totalTime[k] / count as real;
        SameMean(r.avgError[k], r.totalError[k], count, r.avgError[k], r.totalError[k], r.totalMoves[k]);
        SameMean(r.avgTime[k], r.totalTime[k], count, r.avgTime[k], r.totalTime[k], r.totalMoves[k]);
      }
    }
  }

  /** An average of a total over a count carries over to an equal average, total and count. */
  lemma SameMean(avg: real, total: real, count: int, avg': real, total': real, count': int)
    requires count >= 1 && avg == total / count as real
    requires avg' == avg && total' == total && count' == count
    ensures count' >= 1 && avg' == total' / count' as real
  {
  }

  /** The loop of an add from index `m` on, on statistics that already hold the first `m` moves. */
  lemma {:induction false} AddRemainingMoves(s: Stats, t: Stats, times: seq<real>, errors: seq<real>, m: nat)
    requires s.Consistent() && t.Consistent() && m <= Visited(times, errors)
    requires AddedFrom(s, t, times, errors, m)
    ensures UpdateFrom(t, times, errors, 1, m).1 == Pass
    ensures UpdateFrom(t, times, errors, 1, m).0.Consistent()
    ensures AddedFrom(s, UpdateFrom(t, times, errors, 1, m).0, times, errors, Visited(times, errors))
    decreases Visited(times, errors) - m
  {
    if m < Visited(times, errors) {
      AddOneMove(s, t, times, errors, m);
      AddRemainingMoves(s, OneMoveUpdate(t, 1 * m, 1 as real * times[m], errors[m], 1).0, times, errors, m + 1);
    }
  }

  /**
   * Adding a game (`u` = 1) never fails on consistent statistics and keeps
   * them consistent: every visited index gains the game's error, time and one
   * sample, the lists grow to cover the visited indices, and the other
   * indices are left alone.
   */
  lemma AddGameStats(s: Stats, times: seq<real>, errors: seq<real>)
    requires s.Consistent()
    ensures UpdateFrom(s, times, errors, 1, 0).1 == Pass
    ensures UpdateFrom(s, times, errors, 1, 0).0.Consistent()
    ensures AddedFrom(s, UpdateFrom(s, times, errors, 1, 0).0, times, errors, Visited(times, errors))
  {
    AddRemainingMoves(s, s, times, errors, 0);
  }

  /** Adding to empty statistics: one entry per visited move, each the move's own error and time, seen once. */
  lemma AddToEmpty(times: seq<real>, errors: seq<real>)
    ensures UpdateFrom(EmptyStats(), times, errors, 1, 0).1 == Pass
    ensures UpdateFrom(EmptyStats(), times, errors, 1, 0).0.totalError == errors[..Visited(times, errors)]
    ensures UpdateFrom(EmptyStats(), times, errors, 1, 0).0.totalTime == times[..Visited(times, errors)]
    ensures UpdateFrom(EmptyStats(), times, errors, 1, 0).0.totalMoves == seq(Visited(times, errors), k => 1)
  {
    AddGameStats(EmptyStats(), times, errors);
  }

  /**
   * A removal (`u` = -1) negates the index, so its second visited pair has
   * index -1: a removal that visits two or more pairs always fails, with
   * ValueError unless the first pair already failed.
   */
  lemma RemovalFailsAtSecondMove(s: Stats, times: seq<real>, errors: seq<real>)
    requires s.Aligned() && Visited(times, errors) >= 2
    ensures UpdateFrom(s, times, errors, -1, 0).1.Fail?
    ensures OneMoveUpdate(s, 0, -1 as real * times[0], errors[0], -1).1.Pass? ==>
      UpdateFrom(s, times, errors, -1, 0).1 == Fail(ValueError)
  {
  }

  /**
   * A removal changes only index 0: its error is added (not subtracted),
   * its time subtracted and its count lowered by one, and a count that
   * reaches zero fails the division.
   */
  lemma RemovalFirstMove(s: Stats, times: seq<real>, errors: seq<real>)
    requires s.Aligned() && |s.avgError| > 0 && Visited(times, errors) >= 1
    ensures UpdateFrom(s, times, errors, -1, 0).0.totalError == s.totalError[0 := s.totalError[0] + errors[0]]
    ensures UpdateFrom(s, times, errors, -1, 0).0.totalTime == s.totalTime[0 := s.totalTime[0] - times[0]]
    ensures UpdateFrom(s, times, errors, -1, 0).0.totalMoves == s.totalMoves[0 := s.totalMoves[0] - 1]
    ensures s.totalMoves[0] == 1 ==> UpdateFrom(s, times, errors, -1, 0).1 == Fail(ZeroDivisionError)
  {
    RemovalStopsAfterFirst(s, times, errors);
    OneMoveAtSeen(s, 0, -1 as real * times[0], errors[0], -1);
    assert s.totalTime[0] + -1 as real * times[0] == s.totalTime[0] - times[0];
  }

  /** A removal's statistics are those its first pair leaves: a second pair fails without changing them. */
  lemma RemovalStopsAfterFirst(s: Stats, times: seq<real>, errors: seq<real>)
    requires s.Aligned() && Visited(times, errors) >= 1
    ensures UpdateFrom(s, times, errors, -1, 0).0 == OneMoveUpdate(s, 0, -1 as real * times[0], errors[0], -1).0
    ensures OneMoveUpdate(s, 0, -1 as real * times[0], errors[0], -1).1.Fail? ==>
      UpdateFrom(s, times, errors, -1, 0).1 == OneMoveUpdate(s, 0, -1 as real * times[0], errors[0], -1).1
  {
    var step := OneMoveUpdate(s, -1 * 0, -1 as real * times[0], errors[0], -1);
    assert step == OneMoveUpdate(s, 0, -1 as real * times[0], errors[0], -1);
    if step.1.Fail? {
      assert UpdateFrom(s, times, errors, -1, 0) == step;
    } else {
      assert UpdateFrom(s, times, errors, -1, 0) == UpdateFrom(step.0, times, errors, -1, 1);
      if Visited(times, errors) > 1 {
        assert OneMoveUpdate(step.0, -1 * 1, -1 as real * times[1], errors[1], -1) == (step.0, Fail(ValueError));
      } else {
        assert UpdateFrom(step.0, times, errors, -1, 1) == (step.0, Pass);
      }
    }
  }

  /** At an index already seen, one move adds its error, its time and `u` samples to that index's totals. */
  lemma OneMoveAtSeen(s: Stats, moveNum: int, time: real, error: real, u: int)
    requires s.Aligned() && 0 <= moveNum < |s.avgError|
    ensures OneMoveUpdate(s, moveNum, time, error, u).0.totalError == s.totalError[moveNum := s.totalError[moveNum] + error]
    ensures OneMoveUpdate(s, moveNum, time, error, u).0.totalTime == s.totalTime[moveNum := s.totalTime[moveNum] + time]
    ensures OneMoveUpdate(s, moveNum, time, error, u).0.totalMoves == s.totalMoves[moveNum := s.totalMoves[moveNum] + u]
  {
  }

  /** A game without time entries leaves the statistics as they are. */
  lemma NoTimesNoChange(s: Stats, errors: seq<real>, u: int)
    requires s.Aligned()
    ensures UpdateFrom(s, [], errors, u, 0) == (s, Pass)
  {
  }

  /** `MoveStatistics`: the five lists, updated one move at a time. */
  class MoveStatistics {
    var totalError: seq<real>
    var totalTime: seq<real>
    var totalMoves: seq<int>
    var avgError: seq<real>
    var avgTime: seq<real>

    function State(): Stats
      reads this
    {
      Stats(totalError, totalTime, totalMoves, avgError, avgTime)
    }

    predicate Valid()
      reads this
    {
      State().Aligned()
    }

    constructor ()
      ensures State() == EmptyStats() && Valid()
    {
      totalError, totalTime, totalMoves, avgError, avgTime := [], [], [], [], [];
    }

    /**
     * `update`: takes the game's time and error lists (which analyses the
     * game if it has not been) and updates one move per index pair, with
     * index and time multiplied by `u`; the first failure stops it.
     */
    method Update(game: SingleGame, u: int) returns (out: Outcome)
      requires Valid() && game.Valid()
      requires u == 1 || u == -1
      modifies this, game
      ensures game.AnalyzedFrom(old(game.isAnalyzed), old(game.errorPerMove), old(game.timeSpentPerMove))
      ensures game.Opening() == old(game.Opening())
      ensures Valid()
      ensures (State(), out) == UpdateFrom(old(State()), game.timeSpentPerMove, game.errorPerMove, u, 0)
    {
      var times := game.GetTimeSpent();
      var errors := game.GetErrorPerMove();
      out := UpdateMoves(times, errors, u);
    }

    /** The loop of `update` over the game's time and error lists. */
    method UpdateMoves(times: seq<real>, errors: seq<real>, u: int) returns (out: Outcome)
      requires Valid()
      modifies this
      ensures Valid()
      ensures (State(), out) == UpdateFrom(old(State()), times, errors, u, 0)
    {
      var i := 0;
      while i < |times| && i < |errors|
        invariant Valid()
        invariant UpdateFrom(State(), times, errors, u, i) == UpdateFrom(old(State()), times, errors, u, 0)
        decreases |times| - i
      {
        var time, idx := u as real * times[i], u * i;
        out := UpdateOneMove(idx, time, errors[i], u);
        if out.Fail? {
          return;
        }
        i := i + 1;
      }
      out := Pass;
    }

    /** `_updateOneMove`. */
    method UpdateOneMove(moveNum: int, time: real, error: real, u: int) returns (out: Outcome)
      requires Valid()
      modifies this
      ensures Valid()
      ensures (State(), out) == OneMoveUpdate(old(State()), moveNum, time, error, u)
    {
      if moveNum < 0 {
        return Fail(ValueError);
      }
      if IsThisMoveNumberEverPlayed(moveNum) {
        UpdateTotalFields(moveNum, error, time, u);
        out := UpdateAvgFields(moveNum);
      } else {
        InitTotalFields(error, time);
        InitAvgFields(error, time);
        out := Pass;
      }
    }

    /** `_isThisMoveNumberEverPlayed`. */
    predicate IsThisMoveNumberEverPlayed(moveNum: int)
      reads this
    {
      |avgError| > moveNum
    }

    /** `_initAvgFields`. */
    method InitAvgFields(error: real, time: real)
      modifies this
      ensures avgError == old(avgError) + [error] && avgTime == old(avgTime) + [time]
      ensures totalError == old(totalError) && totalTime == old(totalTime) && totalMoves == old(totalMoves)
    {
      avgError := avgError + [error];
      avgTime := avgTime + [time];
    }

    /** `_initTotalFields`. */
    method InitTotalFields(error: real, time: real)
      modifies this
      ensures totalError == old(totalError) + [error] && totalTime == old(totalTime) + [time]
      ensures totalMoves == old(totalMoves) + [1]
      ensures avgError == old(avgError) && avgTime == old(avgTime)
    {
      totalError := totalError + [error];
      totalTime := totalTime + [time];
      totalMoves := totalMoves + [1];
    }

    /** `_updateAvgFields`: the averages at `moveNum` become the totals over the count; a zero count fails. */
    method UpdateAvgFields(moveNum: nat) returns (out: Outcome)
      requires Valid() && moveNum < |avgError|
      modifies this
      ensures totalError == old(totalError) && totalTime == old(totalTime) && totalMoves == old(totalMoves)
      ensures totalMoves[moveNum] == 0 ==> out == Fail(ZeroDivisionError) && State() == old(State())
      ensures totalMoves[moveNum] != 0 ==>
        out == Pass &&
        avgError == old(avgError)[moveNum := totalError[moveNum] / totalMoves[moveNum] as real] &&
        avgTime == old(avgTime)[moveNum := totalTime[moveNum] / totalMoves[moveNum] as real]
    {
      if totalMoves[moveNum] == 0 {
        return Fail(ZeroDivisionError);
      }
      avgError := avgError[moveNum := totalError[moveNum] / totalMoves[moveNum] as real];
      avgTime := avgTime[moveNum := totalTime[moveNum] / totalMoves[moveNum] as real];
      out := Pass;
    }

    /** `_updateTotalFields`: the totals at `moveNum` gain the error, the time and `u` samples. */
    method UpdateTotalFields(moveNum: nat, error: real, time: real, u: int)
      requires Valid() && moveNum < |avgError|
      modifies this
      ensures totalError == old(totalError)[moveNum := old(totalError)[moveNum] + error]
      ensures totalTime == old(totalTime)[moveNum := old(totalTime)[moveNum] + time]
      ensures totalMoves == old(totalMoves)[moveNum := old(totalMoves)[moveNum] + u]
      ensures avgError == old(avgError) && avgTime == old(avgTime)
    {
      totalError := totalError[moveNum := totalError[moveNum] + error];
      totalTime := totalTime[moveNum := totalTime[moveNum] + time];
      totalMoves := totalMoves[moveNum := totalMoves[moveNum] + u];
    }

    /** `clear`: all five lists become empty. */
    method Clear()
      modifies this
      ensures State() == EmptyStats() && Valid()
    {
      totalError, totalTime, totalMoves, avgError, avgTime := [], [], [], [], [];
    }

    /**
     * `get_avg_error`, without the rounding: on consistent statistics, one
     * average per move index, the total error over the games reaching it.
     */
    function GetAvgError(): (r: seq<real>)
      reads this
      ensures State().Consistent() ==> |r| == |totalMoves| && forall k :: 0 <= k < |r| ==>
        r[k] == totalError[k] / totalMoves[k] as real
    {
      avgError
    }

    /**
     * `get_avg_time`, without the rounding: on consistent statistics, one
     * average per move index, the total time over the games reaching it.
     */
    function GetAvgTime(): (r: seq<real>)
      reads this
      ensures State().Consistent() ==> |r| == |totalMoves| && forall k :: 0 <= k < |r| ==>
        r[k] == totalTime[k] / totalMoves[k] as real
    {
      avgTime
    }

    /**
     * `get_total_moves`: on consistent statistics, one count per move index
     * with an average, each at least one game.
     */
    function GetTotalMoves(): (r: seq<int>)
      reads this
      ensures State().Consistent() ==> |r| == |avgError| && forall k :: 0 <= k < |r| ==> r[k] >= 1
    {
      totalMoves
    }
  }
}
