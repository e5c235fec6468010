/**
 * The per-opening aggregation node: the games played in an opening, a game
 * counter, the opening's running move statistics, and one level of variation
 * nodes below it.
 */
module Openings {
  import opened Wrappers
  import opened Enums
  import opened Game
  import opened MoveStats

  /** The position of the first `x` in `s`. */
  function IndexOf<T(==)>(s: seq<T>, x: T): (i: nat)
    requires x in s
    ensures i < |s| && s[i] == x && x !in s[..i]
  {
    if s[0] == x then 0 else assert s[1..][..IndexOf(s[1..], x)] == s[1..IndexOf(s[1..], x) + 1]; 1 + IndexOf(s[1..], x)
  }

  /** `list.remove` without the error: `s` without its first `x`, or `s` when there is none. */
  function RemoveFirst<T(==)>(s: seq<T>, x: T): (r: seq<T>)
    ensures x in s ==> |r| == |s| - 1 && multiset(r) == multiset(s) - multiset{x}
    ensures x !in s ==> r == s
    ensures x in s ==> r == s[..IndexOf(s, x)] + s[IndexOf(s, x) + 1..]
  {
    if x in s then
      var i := IndexOf(s, x);
      assert s == s[..i] + [s[i]] + s[i + 1..];
      s[..i] + s[i + 1..]
    else s
  }

  /** Appending a game that was not there and removing it again gives back the list. */
  lemma RemoveFirstAppend<T>(s: seq<T>, x: T)
    requires x !in s
    ensures RemoveFirst(s + [x], x) == s
  {
    assert (s + [x])[..|s|] == s;
    assert x !in (s + [x])[..|s|];
  }

  /** What a node holds about its games: the history, the counter and the running statistics. */
  datatype NodeState = NodeState(history: seq<SingleGame>, totalGames: int, stats: Stats)

  /**
   * `addGame` on values, given the game's time and error lists: the counter
   * first (the decorator), then the history, then the statistics update.
   */
  function AddEffect(st: NodeState, game: SingleGame, times: seq<real>, errors: seq<real>): (r: (NodeState, Outcome))
    requires st.stats.Aligned()
  {
    var upd := UpdateFrom(st.stats, times, errors, 1, 0);
    (NodeState(st.history + [game], st.totalGames + 1, upd.0), upd.1)
  }

  /**
   * Adding a game to a node with consistent statistics never fails: the game
   * joins the end of the history, the counter grows by one (so a counter
   * equal to the history's length stays equal), and the statistics gain the
   * game's moves and stay consistent.
   */
  lemma AddEffectShape(st: NodeState, game: SingleGame, times: seq<real>, errors: seq<real>)
    requires st.stats.Consistent()
    ensures AddEffect(st, game, times, errors).1 == Pass
    ensures AddEffect(st, game, times, errors).0.history == st.history + [game]
    ensures AddEffect(st, game, times, errors).0.totalGames == st.totalGames + 1
    ensures st.totalGames == |st.history| ==>
      AddEffect(st, game, times, errors).0.totalGames == |AddEffect(st, game, times, errors).0.history|
    ensures AddEffect(st, game, times, errors).0.stats.Consistent()
    ensures AddedFrom(st.stats, AddEffect(st, game, times, errors).0.stats, times, errors, Visited(times, errors))
  {
    AddGameStats(st.stats, times, errors);
  }

  /** `addGame` on values, for each game in turn with its time and error lists. */
  function AddEach(st: NodeState, games: seq<SingleGame>, moves: seq<(seq<real>, seq<real>)>): (r: NodeState)
    requires st.stats.Consistent() && |moves| == |games|
    ensures r.stats.Consistent()
    decreases |games|
  {
    if |games| == 0 then st
    else
      AddEffectShape(st, games[0], moves[0].0, moves[0].1);
      AddEach(AddEffect(st, games[0], moves[0].0, moves[0].1).0, games[1..], moves[1..])
  }

  /**
   * A run of adds appends the games to the history in order and raises the
   * counter `getTotalGames` reports by their number, so on a node built by
   * adds alone the counter is `len` of the node.
   */
  lemma {:induction false} AddEachCounts(st: NodeState, games: seq<SingleGame>, moves: seq<(seq<real>, seq<real>)>)
    requires st.stats.Consistent() && |moves| == |games|
    ensures AddEach(st, games, moves).history == st.history + games
    ensures AddEach(st, games, moves).totalGames == st.totalGames + |games|
    ensures st.totalGames == |st.history| ==> AddEach(st, games, moves).totalGames == |AddEach(st, games, moves).history|
    decreases |games|
  {
    if |games| > 0 {
      AddEffectShape(st, games[0], moves[0].0, moves[0].1);
      AddEachCounts(AddEffect(st, games[0], moves[0].0, moves[0].1).0, games[1..], moves[1..]);
      assert st.history + [games[0]] + games[1..] == st.history + games;
    }
  }

  /**
   * `removeGame` of one node on values, before any recursion into a variation:
   * a game not in the history is refused and nothing changes; otherwise the
   * first occurrence leaves the history, the statistics take the removal, and
   * the counter drops only when that update did not fail.
   */
  function RemovalEffect(st: NodeState, game: SingleGame, times: seq<real>, errors: seq<real>): (r: (NodeState, Outcome))
    requires st.stats.Aligned()
  {
    if game !in st.history then (st, Fail(ValueError))
    else
      var upd := UpdateFrom(st.stats, times, errors, -1, 0);
      (NodeState(RemoveFirst(st.history, game), if upd.1.Pass? then st.totalGames - 1 else st.totalGames, upd.0), upd.1)
  }

  /**
   * A removal refuses a game that is not in the history; otherwise exactly one
   * occurrence of the game leaves the history, and the counter drops by one
   * exactly when the statistics update succeeds.
   */
  lemma RemovalEffectShape(st: NodeState, game: SingleGame, times: seq<real>, errors: seq<real>)
    requires st.stats.Aligned()
    ensures game !in st.history ==> RemovalEffect(st, game, times, errors) == (st, Fail(ValueError))
    ensures game in st.history ==>
      |RemovalEffect(st, game, times, errors).0.history| == |st.history| - 1 &&
      multiset(RemovalEffect(st, game, times, errors).0.history) == multiset(st.history) - multiset{game} &&
      RemovalEffect(st, game, times, errors).0.stats == UpdateFrom(st.stats, times, errors, -1, 0).0 &&
      RemovalEffect(st, game, times, errors).1 == UpdateFrom(st.stats, times, errors, -1, 0).1 &&
      RemovalEffect(st, game, times, errors).0.totalGames ==
        st.totalGames - (if UpdateFrom(st.stats, times, errors, -1, 0).1.Pass? then 1 else 0)
  {
  }

  /** `RemovalEffect` with the game's own time and error lists. */
  function RemovalOf(st: NodeState, game: SingleGame): (NodeState, Outcome)
    requires st.stats.Aligned()
    reads game
  {
    RemovalEffect(st, game, game.timeSpentPerMove, game.errorPerMove)
  }

  /** Removing a game just added, with no time entries, gives back the history and the counter. */
  lemma AddThenRemove(st: NodeState, game: SingleGame, errors: seq<real>)
    requires st.stats.Aligned() && game !in st.history
    ensures RemovalEffect(AddEffect(st, game, [], errors).0, game, [], errors) == (st, Pass)
  {
    RemoveFirstAppend(st.history, game);
    NoTimesNoChange(st.stats, errors, 1);
    NoTimesNoChange(st.stats, errors, -1);
  }

  /** The number of games in `games` with result `r`. */
  function CountResult(games: seq<SingleGame>, r: ChessResult): nat {
    if |games| == 0 then 0
    else CountResult(games[..|games| - 1], r) + (if games[|games| - 1].gameResult == r then 1 else 0)
  }

  /** Every game is counted under exactly one result: the three counts add up to the number of games. */
  lemma {:induction false} RecordPartition(games: seq<SingleGame>)
    ensures CountResult(games, Win) + CountResult(games, Loss) + CountResult(games, Draw) == |games|
  {
    if |games| > 0 {
      RecordPartition(games[..|games| - 1]);
    }
  }

  /** The record of `getRecord`: the three counts under their keys. */
  function Record(games: seq<SingleGame>, k: EnumConstants): (m: map<string, int>)
    requires k.Valid()
    ensures m.Keys == {k.winKey, k.lossKey, k.drawKey}
    ensures m[k.winKey] + m[k.lossKey] + m[k.drawKey] == |games|
  {
    RecordPartition(games);
    map[k.winKey := CountResult(games, Win), k.lossKey := CountResult(games, Loss), k.drawKey := CountResult(games, Draw)]
  }

  function Sum(xs: seq<nat>): nat {
    if |xs| == 0 then 0 else Sum(xs[..|xs| - 1]) + xs[|xs| - 1]
  }

  /** `ceil(a / b)` for a natural `a` and a positive `b`: the least integer whose multiple of `b` reaches `a`. */
  function CeilDiv(a: nat, b: nat): (r: nat)
    requires b > 0
    ensures r * b >= a && (r == 0 || (r - 1) * b < a)
  {
    (a + b - 1) / b
  }

  /** The result of `getVariation`: every variation node, or the one asked for if there is one. */
  datatype VariationLookup = AllVariations(nodes: set<OpeningData>) | OneVariation(node: Option<OpeningData>)

  /** `OpeningData`. */
  class OpeningData {
    const name: string
    const isVariation: bool
    const sep: char                        // between an opening and its variation in a node name
    const moveStats: MoveStatistics
    var variations: map<string, OpeningData>
    var totalGames: int
    var history: seq<SingleGame>
    ghost var Repr: set<object>            // this node, its statistics and its variation nodes with theirs

    /** The statistics are well formed and every game in the history is. */
    predicate LeafValid()
      reads this, moveStats
    {
      moveStats.Valid() && forall g :: g in history ==> g.Valid()
    }

    /** `n` is a well-formed variation node of this opening, with statistics of its own. */
    ghost predicate ChildValid(n: OpeningData)
      reads n, n.moveStats
    {
      n != this && n.Repr == {n, n.moveStats} && n.isVariation && n.variations == map[] && n.moveStats != moveStats && n.sep == sep && n.LeafValid()
    }

    /** Distinct variation names lead to distinct nodes with distinct statistics. */
    predicate ChildrenDistinct()
      reads this
    {
      forall v, w :: v in variations && w in variations && v != w ==>
        variations[v] != variations[w] && variations[v].moveStats != variations[w].moveStats
    }

    /**
     * A variation node has no variations; the variation nodes of an opening
     * are distinct variation nodes with their own statistics.
     */
    ghost predicate Valid()
      reads this, Repr
    {
      this in Repr && moveStats in Repr && LeafValid() &&
      (isVariation ==> variations == map[] && Repr == {this, moveStats}) &&
      (forall v :: v in variations ==>
        variations[v] in Repr && variations[v].moveStats in Repr && ChildValid(variations[v])) &&
      ChildrenDistinct()
    }

    /** A change confined to the variation node `v` and its statistics keeps the node well formed. */
    twostate lemma ChildChangeKeepsValid(v: string)
      requires old(Valid()) && v in old(variations)
      requires unchanged(this) && unchanged(moveStats)
      requires forall w :: w in variations && w != v ==> unchanged(variations[w]) && unchanged(variations[w].moveStats)
      requires variations[v].variations == map[] && variations[v].Repr == old(variations[v].Repr) && variations[v].LeafValid()
      ensures Valid()
    {
      forall w | w in variations
        ensures ChildValid(variations[w])
      {
        assert old(ChildValid(variations[w]));
      }
    }

    /** A change to this node's own history, counter and statistics keeps it well formed. */
    twostate lemma OwnChangeKeepsValid()
      requires old(Valid())
      requires variations == old(variations) && Repr == old(Repr)
      requires forall w :: w in variations ==> unchanged(variations[w]) && unchanged(variations[w].moveStats)
      requires LeafValid()
      ensures Valid()
    {
      forall w | w in variations
        ensures ChildValid(variations[w])
      {
        assert old(ChildValid(variations[w]));
      }
    }

    function Node(): NodeState
      reads this, moveStats
    {
      NodeState(history, totalGames, moveStats.State())
    }

    /** The history, counter and statistics of variation `v`, or those of a fresh node when there is none. */
    function ChildNode(v: string): NodeState
      reads this, variations.Values, set n | n in variations.Values :: n.moveStats
    {
      if v in variations then variations[v].Node() else NodeState([], 0, EmptyStats())
    }

    constructor (name: string, isVariation: bool, sep: char)
      ensures this.name == name && this.isVariation == isVariation && this.sep == sep
      ensures Node() == NodeState([], 0, EmptyStats()) && variations == map[]
      ensures LeafValid() && Valid() && fresh(moveStats) && Repr == {this, moveStats}
    {
      this.name, this.isVariation, this.sep := name, isVariation, sep;
      moveStats := new MoveStatistics();
      variations, totalGames, history := map[], 0, [];
      Repr := {this, moveStats};
    }

    /** `_increaseTotalGames`, the body of the `increment_totalGames` decorator. */
    method IncreaseTotalGames()
      requires Valid()
      modifies this
      ensures Valid() && totalGames == old(totalGames) + 1
      ensures history == old(history) && variations == old(variations) && Repr == old(Repr)
    {
      totalGames := totalGames + 1;
      OwnChangeKeepsValid();
    }

    /** `_decreaseTotalGames`. */
    method DecreaseTotalGames()
      modifies this
      ensures totalGames == old(totalGames) - 1
      ensures history == old(history) && variations == old(variations) && Repr == old(Repr)
    {
      totalGames := totalGames - 1;
    }

    /** `addGame`: the decorator's count, then the history and the statistics (which analyse the game). */
    method AddGame(game: SingleGame) returns (out: Outcome)
      requires Valid() && game.Valid()
      modifies this, moveStats, game
      ensures Valid() && variations == old(variations) && Repr == old(Repr)
      ensures game.AnalyzedFrom(old(game.isAnalyzed), old(game.errorPerMove), old(game.timeSpentPerMove))
      ensures game.Opening() == old(game.Opening())
      ensures (Node(), out) == AddEffect(old(Node()), game, game.timeSpentPerMove, game.errorPerMove)
    {
      IncreaseTotalGames();
      history := history + [game];
      out := moveStats.Update(game, 1);
      OwnChangeKeepsValid();
    }

    /**
     * `addVariation`: the decorator's count on this node, then ValueError on a
     * variation node; otherwise the variation node is made on first use and
     * the game is added to it.
     */
    method AddVariation(game: SingleGame, v: string) returns (out: Outcome)
      requires Valid() && game.Valid()
      modifies Repr, game
      ensures Valid() && old(Repr) <= Repr && fresh(Repr - old(Repr))
      ensures totalGames == old(totalGames) + 1 && history == old(history) && unchanged(moveStats)
      ensures isVariation ==> out == Fail(ValueError) && variations == old(variations) && unchanged(game)
      ensures !isVariation ==> variations.Keys == old(variations.Keys) + {v}
      ensures !isVariation ==> forall w :: w in old(variations) ==> variations[w] == old(variations[w])
      ensures !isVariation ==> forall w :: w in old(variations) && w != v ==>
        unchanged(variations[w]) && unchanged(variations[w].moveStats)
      ensures !isVariation && v !in old(variations) ==> fresh(variations[v]) && variations[v].name == name + [sep] + v
      ensures !isVariation ==>
        game.AnalyzedFrom(old(game.isAnalyzed), old(game.errorPerMove), old(game.timeSpentPerMove)) &&
        game.Opening() == old(game.Opening())
      ensures !isVariation ==>
        (variations[v].Node(), out) == AddEffect(old(ChildNode(v)), game, game.timeSpentPerMove, game.errorPerMove)
    {
      IncreaseTotalGames();
      if isVariation {
        return Fail(ValueError);
      }
      out := AddToOpening(game, v);
    }

    /** The part of `addVariation` on an opening node: the game goes into variation `v`, made on first use. */
    method AddToOpening(game: SingleGame, v: string) returns (out: Outcome)
      requires Valid() && game.Valid() && !isVariation
      modifies Repr, game
      ensures Valid() && old(Repr) <= Repr && fresh(Repr - old(Repr))
      ensures totalGames == old(totalGames) && history == old(history) && unchanged(moveStats)
      ensures variations.Keys == old(variations.Keys) + {v}
      ensures forall w :: w in old(variations) ==> variations[w] == old(variations[w])
      ensures forall w :: w in old(variations) && w != v ==>
        unchanged(variations[w]) && unchanged(variations[w].moveStats)
      ensures v !in old(variations) ==> fresh(variations[v]) && variations[v].name == name + [sep] + v
      ensures game.AnalyzedFrom(old(game.isAnalyzed), old(game.errorPerMove), old(game.timeSpentPerMove))
      ensures game.Opening() == old(game.Opening())
      ensures (variations[v].Node(), out) == AddEffect(old(ChildNode(v)), game, game.timeSpentPerMove, game.errorPerMove)
    {
      EnsureVariation(v);
      out := AddToVariation(v, game);
    }

    /** The variation node `v` of an opening, made on first use with the full name `name + sep + v`. */
    method EnsureVariation(v: string)
      requires Valid() && !isVariation
      modifies this
      ensures Valid() && totalGames == old(totalGames) && history == old(history)
      ensures old(Repr) <= Repr && fresh(Repr - old(Repr))
      ensures variations.Keys == old(variations.Keys) + {v}
      ensures forall w :: w in old(variations) ==> variations[w] == old(variations[w])
      ensures v !in old(variations) ==> fresh(variations[v]) && fresh(variations[v].moveStats) && variations[v].name == name + [sep] + v
      ensures variations[v].Node() == old(ChildNode(v))
    {
      if v !in variations {
        var child := new OpeningData(name + [sep] + v, true, sep);
        AttachVariation(v, child);
      }
    }

    /** Records a new variation node, with statistics of its own, under the name `v`. */
    method AttachVariation(v: string, child: OpeningData)
      requires Valid() && !isVariation && v !in variations
      requires child !in Repr && child.moveStats !in Repr
      requires child.Repr == {child, child.moveStats} && child.isVariation && child.variations == map[]
      requires child.sep == sep && child.LeafValid()
      modifies this
      ensures Valid() && totalGames == old(totalGames) && history == old(history)
      ensures variations == old(variations)[v := child] && Repr == old(Repr) + {child, child.moveStats}
    {
      variations := variations[v := child];
      Repr := Repr + {child, child.moveStats};
      forall w | w in variations
        ensures variations[w] in Repr && variations[w].moveStats in Repr && ChildValid(variations[w])
      {
        if w != v {
          assert old(variations[w] in Repr && ChildValid(variations[w]));
        }
      }
    }

    /** `self._variations[v].addGame(game)`. */
    method AddToVariation(v: string, game: SingleGame) returns (out: Outcome)
      requires Valid() && game.Valid() && v in variations
      modifies variations[v], variations[v].moveStats, game
      ensures Valid() && unchanged(this) && unchanged(moveStats)
      ensures forall w :: w in variations && w != v ==> unchanged(variations[w]) && unchanged(variations[w].moveStats)
      ensures game.AnalyzedFrom(old(game.isAnalyzed), old(game.errorPerMove), old(game.timeSpentPerMove))
      ensures game.Opening() == old(game.Opening())
      ensures (variations[v].Node(), out) == AddEffect(old(ChildNode(v)), game, game.timeSpentPerMove, game.errorPerMove)
    {
      out := variations[v].AddGame(game);
      ChildChangeKeepsValid(v);
    }

    /**
     * `removeGame`: ValueError for a game not in the history; otherwise the
     * removal from this node and, on an opening node, from the variation
     * named by the game, which must exist (KeyError otherwise).
     */
    method RemoveGame(game: SingleGame) returns (out: Outcome)
      requires Valid() && game.Valid()
      modifies Repr, game
      decreases if isVariation then 0 else 1, 2
      ensures Valid() && variations == old(variations) && Repr == old(Repr)
      ensures game !in old(history) ==> out == Fail(ValueError) && unchanged(this) && unchanged(moveStats) && unchanged(game)
      ensures game in old(history) ==>
        game.AnalyzedFrom(old(game.isAnalyzed), old(game.errorPerMove), old(game.timeSpentPerMove)) &&
        game.Opening() == old(game.Opening())
      ensures Node() == RemovalOf(old(Node()), game).0
      ensures out ==
        if RemovalOf(old(Node()), game).1.Fail? then RemovalOf(old(Node()), game).1
        else if isVariation || game.openingVariation.None? then Pass
        else if game.openingVariation.value !in variations then Fail(KeyError)
        else RemovalOf(old(ChildNode(game.openingVariation.value)), game).1
      ensures forall w :: w in variations ==>
        if RemovalOf(old(Node()), game).1.Pass? && game.openingVariation == Some(w) then
          variations[w].Node() == RemovalOf(old(ChildNode(w)), game).0
        else
          unchanged(variations[w]) && unchanged(variations[w].moveStats)
    {
      out := RemoveOwn(game);
      if out.Pass? && !isVariation {
        out := RemoveFromOpening(game);
      }
    }

    /** The rest of `removeGame` on an opening node, once the game left its own history. */
    method RemoveFromOpening(game: SingleGame) returns (out: Outcome)
      requires Valid() && game.Valid() && game.isAnalyzed && !isVariation
      modifies Repr - {this, moveStats}, game
      decreases 1, 1
      ensures Valid() && unchanged(this) && unchanged(moveStats)
      ensures game.isAnalyzed && game.errorPerMove == old(game.errorPerMove) && game.timeSpentPerMove == old(game.timeSpentPerMove)
      ensures game.Opening() == old(game.Opening())
      ensures out ==
        if game.openingVariation.None? then Pass
        else if game.openingVariation.value !in variations then Fail(KeyError)
        else RemovalOf(old(ChildNode(game.openingVariation.value)), game).1
      ensures forall w :: w in variations ==>
        if game.openingVariation == Some(w) then
          variations[w].Node() == RemovalOf(old(ChildNode(w)), game).0
        else
          unchanged(variations[w]) && unchanged(variations[w].moveStats)
    {
      out := Pass;
      var variation := game.GetVariation();
      if variation.Some? {
        if variation.value !in variations {
          return Fail(KeyError);
        }
        out := RemoveFromVariation(variation.value, game);
      }
    }

    /** `self._variations[v].removeGame(game)` on an opening node. */
    method RemoveFromVariation(v: string, game: SingleGame) returns (out: Outcome)
      requires Valid() && game.Valid() && game.isAnalyzed && !isVariation && v in variations
      modifies variations[v], variations[v].moveStats, game
      decreases 1, 0
      ensures Valid() && unchanged(this) && unchanged(moveStats)
      ensures forall w :: w in variations && w != v ==> unchanged(variations[w]) && unchanged(variations[w].moveStats)
      ensures game.isAnalyzed && game.errorPerMove == old(game.errorPerMove) && game.timeSpentPerMove == old(game.timeSpentPerMove)
      ensures game.Opening() == old(game.Opening())
      ensures (variations[v].Node(), out) == RemovalOf(old(ChildNode(v)), game)
    {
      out := variations[v].RemoveGame(game);
      ChildChangeKeepsValid(v);
    }

    /** The part of `removeGame` on this node: the history, the statistics, then the counter. */
    method RemoveOwn(game: SingleGame) returns (out: Outcome)
      requires Valid() && game.Valid()
      modifies this, moveStats, game
      ensures Valid() && variations == old(variations) && Repr == old(Repr)
      ensures game !in old(history) ==> unchanged(this) && unchanged(moveStats) && unchanged(game)
      ensures game in old(history) ==>
        game.AnalyzedFrom(old(game.isAnalyzed), old(game.errorPerMove), old(game.timeSpentPerMove)) &&
        game.Opening() == old(game.Opening())
      ensures (Node(), out) == RemovalOf(old(Node()), game)
    {
      if game !in history {
        return Fail(ValueError);
      }
      out := TakeOut(game);
    }

    /** The removal of a game that is in the history: its first occurrence, the statistics, then the counter. */
    method TakeOut(game: SingleGame) returns (out: Outcome)
      requires Valid() && game.Valid() && game in history
      modifies this, moveStats, game
      ensures Valid() && variations == old(variations) && Repr == old(Repr)
      ensures game.AnalyzedFrom(old(game.isAnalyzed), old(game.errorPerMove), old(game.timeSpentPerMove))
      ensures game.Opening() == old(game.Opening())
      ensures (Node(), out) == RemovalOf(old(Node()), game)
    {
      ghost var st := Node();
      out := moveStats.Update(game, -1);
      ghost var removal := RemovalOf(st, game);
      assert removal.0 == NodeState(RemoveFirst(st.history, game), st.totalGames - (if out.Pass? then 1 else 0), moveStats.State());
      assert removal.1 == out;
      OwnChangeKeepsValid();
      Forget(game, out.Pass?);
      assert Node() == removal.0;
    }

    /** The history loses its first `game`, and the counter drops when `drop` says the statistics took the removal. */
    method Forget(game: SingleGame, drop: bool)
      requires Valid()
      modifies this
      ensures Valid() && variations == old(variations) && Repr == old(Repr)
      ensures history == RemoveFirst(old(history), game)
      ensures totalGames == old(totalGames) - (if drop then 1 else 0)
    {
      history := RemoveFirst(history, game);
      if drop {
        DecreaseTotalGames();
      }
      OwnChangeKeepsValid();
    }

    /** `getRecord`: counts the history's wins, losses and draws (anything else is a draw). */
    method GetRecord(k: EnumConstants) returns (record: map<string, int>)
      requires k.Valid()
      ensures record == Record(history, k)
    {
      var loss, draws, wins := 0, 0, 0;
      var i := 0;
      while i < |history|
        invariant i <= |history|
        invariant wins == CountResult(history[..i], Win)
        invariant loss == CountResult(history[..i], Loss)
        invariant draws == CountResult(history[..i], Draw)
      {
        assert history[..i + 1][..i] == history[..i];
        if history[i].gameResult == Win {
          wins := wins + 1;
        } else if history[i].gameResult == Loss {
          loss := loss + 1;
        } else {
          draws := draws + 1;
        }
        i := i + 1;
      }
      assert history[..i] == history;
      record := map[k.winKey := wins, k.lossKey := loss, k.drawKey := draws];
    }

    /** The moves in the book of each game of `games`. */
    static function Leaving(games: seq<SingleGame>): (r: seq<nat>)
      reads set g | g in games
      ensures |r| == |games|
      ensures forall j :: 0 <= j < |games| ==> r[j] == games[j].moveLeavingOpening
    {
      if |games| == 0 then [] else Leaving(games[..|games| - 1]) + [games[|games| - 1].moveLeavingOpening]
    }

    /**
     * `getAvgMoveLeavingOpening`: the ceiling of the mean of the games' moves
     * in the book (which analyses every game); an empty history divides by zero.
     */
    method GetAvgMoveLeavingOpening() returns (r: Result<nat>)
      requires Valid()
      modifies set g | g in history
      ensures forall j :: 0 <= j < |history| ==> history[j].isAnalyzed && history[j].Opening() == old(history[j].Opening())
      ensures |history| == 0 ==> r == Err(ZeroDivisionError)
      ensures |history| > 0 ==> r == Ok(CeilDiv(Sum(old(Leaving(history))), |history|))
    {
      var total := LeavingTotal();
      if |history| == 0 {
        return Err(ZeroDivisionError);
      }
      r := Ok(CeilDiv(total, |history|));
    }

    /** The loop of `getAvgMoveLeavingOpening`: the sum of the games' moves in the book. */
    method LeavingTotal() returns (total: nat)
      requires LeafValid()
      modifies set g | g in history
      ensures forall j :: 0 <= j < |history| ==> history[j].isAnalyzed && history[j].Opening() == old(history[j].Opening())
      ensures total == Sum(old(Leaving(history)))
    {
      var games := history;
      ghost var leaving := Leaving(games);
      total := 0;
      var i := 0;
      while i < |games|
        invariant i <= |games|
        invariant forall j :: 0 <= j < |games| ==> games[j].Valid() && games[j].Opening() == old(games[j].Opening())
        invariant forall j :: 0 <= j < i ==> games[j].isAnalyzed
        invariant total == Sum(leaving[..i])
      {
        assert leaving[..i + 1][..i] == leaving[..i];
        var m := MovesInBook(games[i]);
        total := total + m;
        i := i + 1;
      }
      assert leaving[..i] == leaving;
    }

    /** One step of the loop: a game's moves in the book, after its analysis. */
    static method MovesInBook(game: SingleGame) returns (m: nat)
      requires game.Valid()
      modifies game
      ensures game.isAnalyzed && game.Opening() == old(game.Opening()) && m == game.moveLeavingOpening
    {
      m := game.GetMoveLeavingOpening();
    }

    /** `getVariation`: all variation nodes for no name, else the named node if there is one. */
    function GetVariation(v: Option<string>): (r: VariationLookup)
      reads this
      ensures v.None? ==> r == AllVariations(variations.Values)
      ensures v.Some? ==> r.OneVariation? && (r.node.Some? <==> v.value in variations)
      ensures v.Some? && r.node.Some? ==> r.node.value == variations[v.value]
    {
      match v
      case None => AllVariations(variations.Values)
      case Some(name) => OneVariation(if name in variations then Some(variations[name]) else None)
    }

    /**
     * `__len__`: the number of games in the history, which is the total of
     * the wins, losses and draws `getRecord` counts.
     */
    function Len(): (n: nat)
      reads this
      ensures n == CountResult(history, Win) + CountResult(history, Loss) + CountResult(history, Draw)
    {
      RecordPartition(history);
      |history|
    }

    /** `getTotalGames`: the counter, which each add raises by one (see `AddEachCounts`). */
    function GetTotalGames(): int
      reads this
    {
      totalGames
    }

    /** `getTimeSpent`: the average time per move (unrounded), the total over the count at each index. */
    function GetTimeSpent(): (r: seq<real>)
      reads this, moveStats
      ensures moveStats.State().Consistent() ==> |r| == |moveStats.totalMoves| && forall k :: 0 <= k < |r| ==>
        r[k] == moveStats.totalTime[k] / moveStats.totalMoves[k] as real
    {
      moveStats.GetAvgTime()
    }

    /** `getErrorPerMove`: the average error per move (unrounded), the total over the count at each index. */
    function GetErrorPerMove(): (r: seq<real>)
      reads this, moveStats
      ensures moveStats.State().Consistent() ==> |r| == |moveStats.totalMoves| && forall k :: 0 <= k < |r| ==>
        r[k] == moveStats.totalError[k] / moveStats.totalMoves[k] as real
    {
      moveStats.GetAvgError()
    }

    /** `getTotalMoves` and `getTotalTimesPlayedMove`: the count per move index, each at least one game. */
    function GetTotalMoves(): (r: seq<int>)
      reads this, moveStats
      ensures moveStats.State().Consistent() ==> |r| == |moveStats.avgError| && forall k :: 0 <= k < |r| ==> r[k] >= 1
    {
      moveStats.GetTotalMoves()
    }
  }
}
