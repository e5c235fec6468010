/**
 * The query pipeline of `ChessAnalysis`: validating the options of a query
 * and turning each filtering option into a candidate set of games, keeping
 * the games every present option accepts, analysing them and rebuilding the
 * map from main opening to `OpeningData`, then answering from that map.
 *
 * Loading the games from files is not modelled: the set of all games is
 * given to the constructor.
 */
module Analysis {
  import opened Wrappers
  import opened Text
  import opened PyValues
  import opened Enums
  import opened Game
  import opened MoveStats
  import opened Openings
  import opened Queries

  // ---------------------------------------------------------------------
  // Query options and the games each one accepts
  // ---------------------------------------------------------------------

  /**
   * One bound argument of a query, in the order of the query's signature.
   * Dates arrive already parsed; `OtherArg` stands for the arguments the
   * validation loop does not look at (`moveBound`, `gamesBound`, ...).
   */
  datatype Arg =
    | OpeningsArg(names: Option<seq<string>>)
    | OpponentArg(opponent: PyValue)
    | ResultArg(result: PyValue)
    | FromDateArg(fromDate: Date)
    | ToDateArg(toDate: Date)
    | EloBoundArg(eloBound: PyValue)
    | TimeControlArg(timeControl: PyValue)
    | TakeTopArg(takeTop: PyValue)
    | ReverseArg(reverse: PyValue)
    | PlotArg(plot: PyValue)
    | SetGapArg(setGap: PyValue)
    | OtherArg

  /** What one argument contributes: a candidate set, a rewritten `takeTop`, or only a check. */
  datatype Contribution = Candidates(games: set<SingleGame>) | TakeTop(value: int) | Checked

  /** The opening fields of every game, the only game state the options look at that analysis could touch. */
  function ViewsOf(games: set<SingleGame>): (r: map<SingleGame, OpeningState>)
    reads games
    ensures r.Keys == games
  {
    map g | g in games :: g.Opening()
  }

  /**
   * `_filterOpenings`: every game for `None`; otherwise the games whose full
   * name or main opening is one of the names.
   */
  function OpeningsCandidates(games: set<SingleGame>, views: map<SingleGame, OpeningState>, names: Option<seq<string>>): (r: set<SingleGame>)
    requires games <= views.Keys
    ensures r <= games
    ensures names.None? ==> r == games
    ensures names.Some? ==> forall g :: g in games ==>
      (g in r <==> NameOf(views[g].main, views[g].variation, g.c.openingSep) in names.value || views[g].main in names.value)
  {
    if names.None? then games
    else set g | g in games && (NameOf(views[g].main, views[g].variation, g.c.openingSep) in names.value || views[g].main in names.value)
  }

  /**
   * `_validateThenUpdateOpponents` and `_filterOpponents`: `None` stands for
   * every opponent; a string keeps the games whose opponent occurs in it
   * (Python's `in` on two strings); a tuple keeps those whose opponent is one
   * of its strings.
   */
  function OpponentCandidates(games: set<SingleGame>, opponent: PyValue): (r: Result<set<SingleGame>>)
    ensures r.Err? <==> ValidateOpponent(opponent).Fail?
    ensures r.Err? ==> r.error == ValueError
    ensures r.Ok? ==> r.value <= games
    ensures opponent.PyNone? ==> r == Ok(games)
    ensures opponent.PyStr? ==> r == Ok(set g | g in games && Contains(opponent.s, g.opponent))
  {
    match ValidateOpponent(opponent)
    case Fail(e) => Err(e)
    case Pass =>
      match opponent
      case PyStr(s) => Ok(set g | g in games && Contains(s, g.opponent))
      case PyTuple(items) => Ok(set g | g in games && PyStr(g.opponent) in items)
      case _ => Ok(games)
  }

  /**
   * `_validateThenUpdateTimeControl`: every game for `None`; otherwise the
   * games with the parsed base time and bonus. `extractTimeControl` asserts
   * that it was given a string, so any other value raises AssertionError.
   */
  function TimeControlCandidates(games: set<SingleGame>, timeControl: PyValue, c: GameConstants): (r: Result<set<SingleGame>>)
    ensures timeControl.PyNone? ==> r == Ok(games)
    ensures timeControl.PyStr? ==> (r.Err? <==> ExtractTimeControl(timeControl.s, c).Err?)
    ensures !timeControl.PyNone? && !timeControl.PyStr? ==> r == Err(AssertionError)
    ensures r.Err? ==> r.error == AssertionError
    ensures timeControl.PyStr? && r.Ok? ==> forall g :: g in games ==>
      (g in r.value <==> (g.timeControl, g.bonusTime) == ExtractTimeControl(timeControl.s, c).value)
  {
    match timeControl
    case PyNone => Ok(games)
    case PyStr(s) =>
      (match ExtractTimeControl(s, c)
       case Err(e) => Err(e)
       case Ok(tc) => Ok(set g | g in games && g.timeControl == tc.0 && g.bonusTime == tc.1))
    case _ => Err(AssertionError)
  }

  /** The validation and, for a filtering option, the candidate set of one argument. */
  function Contribute(a: Arg, games: set<SingleGame>, views: map<SingleGame, OpeningState>,
                      k: EnumConstants, c: GameConstants, q: QueryConstants): (r: Result<Contribution>)
    requires games <= views.Keys
    ensures r.Ok? && r.value.Candidates? ==> r.value.games <= games
    ensures a.ResultArg? ==> (r.Err? <==> ValidateResult(a.result).Fail? || NumToChessResult(a.result, k).Err?)
    ensures a.ResultArg? && ValidateResult(a.result).Fail? ==> r == Err(ValidateResult(a.result).error)
    ensures a.ResultArg? && r.Ok? ==> r.value.Candidates? && forall g :: g in games ==>
      (g in r.value.games <==> g.gameResult in NumToChessResult(a.result, k).value)
    ensures a.FromDateArg? ==> r.Ok? && r.value.Candidates? && forall g :: g in games ==>
      (g in r.value.games <==> DateLe(a.fromDate, g.date))
    ensures a.ToDateArg? ==> r.Ok? && r.value.Candidates? && forall g :: g in games ==>
      (g in r.value.games <==> DateLe(g.date, a.toDate))
    ensures a.EloBoundArg? ==> (r.Err? <==> ValidateEloBound(a.eloBound, q).Fail?)
    ensures a.EloBoundArg? && r.Ok? ==> r.value.Candidates? && forall g :: g in games ==>
      (g in r.value.games <==> g.GetOpponentElo() <= IntValue(a.eloBound))
    ensures a.TakeTopArg? ==> (r.Err? <==> ValidateThenUpdateTakeTop(a.takeTop, q).Err?)
    ensures a.TakeTopArg? && r.Ok? ==> r.value == TakeTop(ValidateThenUpdateTakeTop(a.takeTop, q).value)
    ensures (a.ReverseArg? || a.PlotArg? || a.SetGapArg? || a.OtherArg?) ==> r.Ok? ==> r.value == Checked
    ensures a.ReverseArg? ==> (r.Err? <==> !a.reverse.PyBool?)
    ensures a.PlotArg? ==> (r.Err? <==> !a.plot.PyBool?)
    ensures a.SetGapArg? ==> (r.Err? <==> ValidateSetGap(a.setGap, q).Fail?)
    ensures a.SetGapArg? && r.Err? ==> r.error == ValidateSetGap(a.setGap, q).error
    ensures r.Err? ==> r.error in {ValueError, AssertionError, KeyError, TypeError}
  {
    match a
    case OpeningsArg(names) => Ok(Candidates(OpeningsCandidates(games, views, names)))
    case OpponentArg(v) =>
      (match OpponentCandidates(games, v)
       case Err(e) => Err(e)
       case Ok(s) => Ok(Candidates(s)))
    case ResultArg(v) =>
      if ValidateResult(v).Fail? then Err(ValidateResult(v).error)
      else
      (match NumToChessResult(v, k)
       case Err(e) => Err(e)
       case Ok(rs) => Ok(Candidates(set g | g in games && g.gameResult in rs)))
    case FromDateArg(d) => Ok(Candidates(set g | g in games && DateLe(d, g.date)))
    case ToDateArg(d) => Ok(Candidates(set g | g in games && DateLe(g.date, d)))
    case EloBoundArg(v) =>
      if ValidateEloBound(v, q).Fail? then Err(AssertionError)
      else Ok(Candidates(set g | g in games && g.GetOpponentElo() <= IntValue(v)))
    case TimeControlArg(tc) =>
      (match TimeControlCandidates(games, tc, c)
       case Err(e) => Err(e)
       case Ok(s) => Ok(Candidates(s)))
    case TakeTopArg(v) =>
      (match ValidateThenUpdateTakeTop(v, q)
       case Err(e) => Err(e)
       case Ok(t) => Ok(TakeTop(t)))
    case ReverseArg(v) => if ValidateBool(v).Fail? then Err(AssertionError) else Ok(Checked)
    case PlotArg(v) => if ValidateBool(v).Fail? then Err(AssertionError) else Ok(Checked)
    case SetGapArg(v) => if ValidateSetGap(v, q).Fail? then Err(ValidateSetGap(v, q).error) else Ok(Checked)
    case OtherArg => Ok(Checked)
  }

  /**
   * Only a tuple of numbers passes as a result filter, and it keeps the games
   * whose result one of its items names.
   */
  lemma ResultFilterAccepts(v: PyValue, games: set<SingleGame>, views: map<SingleGame, OpeningState>,
                            k: EnumConstants, c: GameConstants, q: QueryConstants)
    requires games <= views.Keys
    ensures Contribute(ResultArg(v), games, views, k, c, q).Ok? <==> NumberTuple(v)
    ensures NumberTuple(v) ==> forall g :: g in games ==>
      (g in Contribute(ResultArg(v), games, views, k, c, q).value.games <==>
       exists i :: 0 <= i < |v.items| && Translate(v.items[i], k) == Some(g.gameResult))
  {
    if NumberTuple(v) {
      assert forall i :: 0 <= i < |v.items| ==> Hashable(v.items[i]);
      FilterKeysMembers(v.items, k);
    }
  }

  /** The candidate sets of the present filtering options, in order, and the rewritten `takeTop`. */
  datatype Gathered = Gathered(present: seq<set<SingleGame>>, takeTop: Option<int>)

  /** The validation loop of `_validateThenUpdateArgs` over its arguments: the first failure stops it. */
  function Gather(args: seq<Arg>, games: set<SingleGame>, views: map<SingleGame, OpeningState>,
                  k: EnumConstants, c: GameConstants, q: QueryConstants): (r: Result<Gathered>)
    requires games <= views.Keys
    ensures r.Ok? ==> |r.value.present| <= |args|
    ensures r.Ok? ==> forall i :: 0 <= i < |r.value.present| ==> r.value.present[i] <= games
  {
    if |args| == 0 then Ok(Gathered([], None))
    else
      match Gather(args[..|args| - 1], games, views, k, c, q)
      case Err(e) => Err(e)
      case Ok(p) =>
        (match Contribute(args[|args| - 1], games, views, k, c, q)
         case Err(e) => Err(e)
         case Ok(Candidates(s)) => Ok(Gathered(p.present + [s], p.takeTop))
         case Ok(TakeTop(t)) => Ok(Gathered(p.present, Some(t)))
         case Ok(Checked) => Ok(p))
  }

  /** A validation error anywhere stops the loop with that error. */
  lemma {:induction false} GatherStopsAtFirstError(args: seq<Arg>, games: set<SingleGame>, views: map<SingleGame, OpeningState>,
                                                   k: EnumConstants, c: GameConstants, q: QueryConstants, i: nat)
    requires games <= views.Keys && i < |args|
    requires Contribute(args[i], games, views, k, c, q).Err?
    ensures Gather(args, games, views, k, c, q).Err?
  {
    if i < |args| - 1 {
      assert args[..|args| - 1][i] == args[i];
      GatherStopsAtFirstError(args[..|args| - 1], games, views, k, c, q, i);
    }
  }

  /** The loop succeeds exactly when every argument passes its validation. */
  lemma {:induction false} GatherOkIff(args: seq<Arg>, games: set<SingleGame>, views: map<SingleGame, OpeningState>,
                                       k: EnumConstants, c: GameConstants, q: QueryConstants)
    requires games <= views.Keys
    ensures Gather(args, games, views, k, c, q).Ok? <==> forall i :: 0 <= i < |args| ==> Contribute(args[i], games, views, k, c, q).Ok?
  {
    if |args| > 0 {
      var prefix := args[..|args| - 1];
      GatherOkIff(prefix, games, views, k, c, q);
      assert forall i :: 0 <= i < |prefix| ==> prefix[i] == args[i];
    }
  }

  /** Once a prefix of the arguments fails, the whole loop fails with that error. */
  lemma {:induction false} GatherKeepsError(args: seq<Arg>, games: set<SingleGame>, views: map<SingleGame, OpeningState>,
                                            k: EnumConstants, c: GameConstants, q: QueryConstants, j: nat)
    requires games <= views.Keys && j <= |args|
    requires Gather(args[..j], games, views, k, c, q).Err?
    ensures Gather(args, games, views, k, c, q) == Gather(args[..j], games, views, k, c, q)
  {
    if j < |args| {
      assert args[..|args| - 1][..j] == args[..j];
      GatherKeepsError(args[..|args| - 1], games, views, k, c, q, j);
    } else {
      assert args[..j] == args;
    }
  }

  /** The games of `rest` still have the fields recorded in `before`. */
  ghost predicate Untouched(rest: set<SingleGame>, before: map<SingleGame, LazyFields>)
    reads rest
  {
    forall h :: h in rest ==> h in before && h.Lazy() == before[h]
  }

  /** The games of `done` are analysed games, analysed from the fields recorded in `before`. */
  ghost predicate AnalysedFromSnapshot(done: set<SingleGame>, before: map<SingleGame, LazyFields>)
    reads done
  {
    forall h :: h in done ==> h in before && h.Valid() && h.Lazy() == h.AfterAnalysis(before[h])
  }

  /** Moving an element from the part still to visit to the part visited keeps the two splitting the whole. */
  lemma MoveOver<T>(all: set<T>, rest: set<T>, done: set<T>, x: T)
    requires rest <= all && done == all - rest && x in rest
    ensures rest - {x} <= all && done + {x} == all - (rest - {x}) && |rest - {x}| < |rest|
  {
  }

  /** One more game looked at by `_filterOpenings` joins the candidates exactly when it is listed. */
  lemma CandidatesStep(done: set<SingleGame>, g: SingleGame, views: map<SingleGame, OpeningState>, names: seq<string>, keep: bool)
    requires done <= views.Keys && g in views
    requires keep <==> NameOf(views[g].main, views[g].variation, g.c.openingSep) in names || views[g].main in names
    ensures OpeningsCandidates(done + {g}, views, Some(names)) ==
      OpeningsCandidates(done, views, Some(names)) + (if keep then {g} else {})
  {
  }

  /**
   * Whether the validation loop reaches an openings argument that names
   * openings: `_filterOpenings` then asks every loaded game for its name and
   * main opening, and those getters analyse a game that is not analysed yet.
   */
  function AnalysesGames(args: seq<Arg>, games: set<SingleGame>, views: map<SingleGame, OpeningState>,
                         k: EnumConstants, c: GameConstants, q: QueryConstants): bool
    requires games <= views.Keys
  {
    if |args| == 0 then false
    else
      var prefix, a := args[..|args| - 1], args[|args| - 1];
      AnalysesGames(prefix, games, views, k, c, q) ||
      (Gather(prefix, games, views, k, c, q).Ok? && a.OpeningsArg? && a.names.Some?)
  }

  /** The games are analysed exactly when some openings argument naming openings is reached with no error before it. */
  lemma {:induction false} AnalysesGamesIff(args: seq<Arg>, games: set<SingleGame>, views: map<SingleGame, OpeningState>,
                                            k: EnumConstants, c: GameConstants, q: QueryConstants)
    requires games <= views.Keys
    ensures AnalysesGames(args, games, views, k, c, q) <==>
      exists i :: 0 <= i < |args| && args[i].OpeningsArg? && args[i].names.Some? && Gather(args[..i], games, views, k, c, q).Ok?
  {
    if |args| > 0 {
      var prefix := args[..|args| - 1];
      AnalysesGamesIff(prefix, games, views, k, c, q);
      assert forall i :: 0 <= i < |prefix| ==> prefix[i] == args[i] && prefix[..i] == args[..i];
      assert prefix == args[..|args| - 1];
    }
  }

  /** After a validation error no later argument is reached, so none of them analyses the games. */
  lemma {:induction false} AnalysesGamesAfterError(args: seq<Arg>, games: set<SingleGame>, views: map<SingleGame, OpeningState>,
                                                   k: EnumConstants, c: GameConstants, q: QueryConstants, j: nat)
    requires games <= views.Keys && j <= |args|
    requires Gather(args[..j], games, views, k, c, q).Err?
    ensures AnalysesGames(args, games, views, k, c, q) == AnalysesGames(args[..j], games, views, k, c, q)
  {
    if j < |args| {
      var prefix := args[..|args| - 1];
      assert prefix[..j] == args[..j];
      AnalysesGamesAfterError(prefix, games, views, k, c, q, j);
      GatherKeepsError(prefix, games, views, k, c, q, j);
    } else {
      assert args[..j] == args;
    }
  }

  /** A loop that gathers no candidate set met no openings argument, so it analysed no game. */
  lemma {:induction false} NoFilterAnalysesNothing(args: seq<Arg>, games: set<SingleGame>, views: map<SingleGame, OpeningState>,
                                                   k: EnumConstants, c: GameConstants, q: QueryConstants)
    requires games <= views.Keys
    requires Gather(args, games, views, k, c, q).Ok? && |Gather(args, games, views, k, c, q).value.present| == 0
    ensures !AnalysesGames(args, games, views, k, c, q)
  {
    if |args| > 0 {
      var prefix := args[..|args| - 1];
      assert |Gather(prefix, games, views, k, c, q).value.present| <= |Gather(args, games, views, k, c, q).value.present|;
      NoFilterAnalysesNothing(prefix, games, views, k, c, q);
    }
  }

  /** `set.intersection(*presentArgs)` for at least one set. */
  function Intersection<T>(sets: seq<set<T>>): (r: set<T>)
    requires |sets| >= 1
    ensures r <= sets[0]
    ensures forall x :: x in sets[0] ==> (x in r <==> forall i :: 0 <= i < |sets| ==> x in sets[i])
  {
    if |sets| == 1 then sets[0]
    else
      var r := Intersection(sets[..|sets| - 1]) * sets[|sets| - 1];
      assert forall i :: 0 <= i < |sets| - 1 ==> sets[..|sets| - 1][i] == sets[i];
      r
  }

  /** The games an `openings=None` argument lets through are all the games. */
  lemma NoOpeningsKeepsAll(games: set<SingleGame>, views: map<SingleGame, OpeningState>,
                           k: EnumConstants, c: GameConstants, q: QueryConstants)
    requires games <= views.Keys
    ensures Gather([OpeningsArg(None)], games, views, k, c, q) == Ok(Gathered([games], None))
  {
    var args := [OpeningsArg(None)];
    assert args[..0] == [];
    assert Gather(args[..0], games, views, k, c, q) == Ok(Gathered([], None));
    assert Contribute(args[0], games, views, k, c, q) == Ok(Candidates(games));
    assert [] + [games] == [games];
    assert Gather(args, games, views, k, c, q) == Ok(Gathered([] + [games], None));
  }

  // ---------------------------------------------------------------------
  // The opening map on values
  // ---------------------------------------------------------------------

  /**
   * An entry of the opening map: the main-opening node's history, counter
   * and statistics, and the same for each of its variation nodes, by the key
   * `addVariation` was given.
   */
  datatype OpeningEntry = OpeningEntry(name: string, node: NodeState, variations: map<string, NodeState>)

  /** The state of a node nothing was added to yet. */
  function EmptyNode(): (st: NodeState)
    ensures st.history == [] && st.totalGames == 0 && st.stats.Aligned()
  {
    NodeState([], 0, EmptyStats())
  }

  /** `OpeningData(name)`: a main-opening node with no game and no variation. */
  function FreshEntry(name: string): (e: OpeningEntry)
    ensures e.name == name && e.node == EmptyNode() && e.variations == map[]
  {
    OpeningEntry(name, EmptyNode(), map[])
  }

  /** Every node state of an entry has aligned statistics. */
  predicate EntryOk(e: OpeningEntry) {
    e.node.stats.Aligned() && forall v :: v in e.variations ==> e.variations[v].stats.Aligned()
  }

  /** `addGame` on the main node of an entry, as `OpeningData.AddGame` states it. */
  function MainAdd(e: OpeningEntry, game: SingleGame, times: seq<real>, errors: seq<real>): (r: (OpeningEntry, Outcome))
    requires EntryOk(e)
    ensures EntryOk(r.0) && r.0.name == e.name && r.0.variations == e.variations
    ensures r.0.node.history == e.node.history + [game] && r.0.node.totalGames == e.node.totalGames + 1
    ensures (r.0.node, r.1) == AddEffect(e.node, game, times, errors)
  {
    var (st, out) := AddEffect(e.node, game, times, errors);
    (e.(node := st), out)
  }

  /**
   * `addVariation` on the main node of an entry, as `OpeningData.AddVariation`
   * states it: the main counter grows by one, the variation node is made on
   * first use and takes the game.
   */
  function VariationAdd(e: OpeningEntry, v: string, game: SingleGame, times: seq<real>, errors: seq<real>): (r: (OpeningEntry, Outcome))
    requires EntryOk(e)
    ensures EntryOk(r.0) && r.0.name == e.name
    ensures r.0.node == e.node.(totalGames := e.node.totalGames + 1)
    ensures r.0.variations.Keys == e.variations.Keys + {v}
    ensures forall w :: w in e.variations && w != v ==> r.0.variations[w] == e.variations[w]
    ensures (r.0.variations[v], r.1) == AddEffect(if v in e.variations then e.variations[v] else EmptyNode(), game, times, errors)
  {
    var child := if v in e.variations then e.variations[v] else EmptyNode();
    var (st, out) := AddEffect(child, game, times, errors);
    (OpeningEntry(e.name, e.node.(totalGames := e.node.totalGames + 1), e.variations[v := st]), out)
  }

  /**
   * `_updateOpening` on an entry: the main node takes the game, then, for a
   * game with a variation, the variation node keyed by `name` does; a failure
   * stops it. When nothing fails the main node holds the game once more in
   * its history and statistics, and counts it twice when it has a variation.
   */
  function OpeningAdd(e: OpeningEntry, game: SingleGame, name: Option<string>, times: seq<real>, errors: seq<real>): (r: (OpeningEntry, Outcome))
    requires EntryOk(e)
    ensures EntryOk(r.0) && r.0.name == e.name
    ensures r.1.Pass? ==> r.0.node == NodeState(e.node.history + [game],
                                               e.node.totalGames + 1 + (if name.Some? then 1 else 0),
                                               UpdateFrom(e.node.stats, times, errors, 1, 0).0)
  {
    var main := MainAdd(e, game, times, errors);
    if main.1.Fail? || name.None? then main else VariationAdd(main.0, name.value, game, times, errors)
  }

  /** The key `_updateOpening` files a game's variation under: its full name, when it has a variation. */
  function VariationKey(g: SingleGame): (r: Option<string>)
    reads g
    ensures r.Some? <==> g.openingVariation.Some?
  {
    if g.openingVariation.Some? then Some(NameOf(g.mainOpening, g.openingVariation, g.c.openingSep)) else None
  }

  /** Setting a key twice keeps the second value. */
  lemma UpdateTwice(m: map<string, OpeningEntry>, key: string, a: OpeningEntry, b: OpeningEntry)
    ensures m[key := a][key := b] == m[key := b]
  {
  }

  /** The main node of `key` in a map, or that of a fresh entry. */
  function NodeIn(m: map<string, OpeningEntry>, key: string): NodeState {
    if key in m then m[key].node else EmptyNode()
  }

  // ---------------------------------------------------------------------
  // What analysing a sequence of games does to the map and the statistics
  // ---------------------------------------------------------------------

  /** A game as `_initOpening` leaves it: its opening fields and its time and error lists. */
  datatype Processed = Processed(game: SingleGame, opening: OpeningState, times: seq<real>, errors: seq<real>)

  /** The fields of a game that the statistics see. */
  function Snapshot(g: SingleGame): (p: Processed)
    reads g
    ensures p.game == g && p.opening == g.Opening()
    ensures p.opening.main == g.mainOpening && p.opening.variation == g.openingVariation
    ensures p.times == g.timeSpentPerMove && p.errors == g.errorPerMove
  {
    Processed(g, g.Opening(), g.timeSpentPerMove, g.errorPerMove)
  }

  /**
   * One game through `_updateOpening`, on its main opening's node: the game
   * joins the history and the statistics and counts once, and once more when
   * it has a variation (`addVariation` bumps the main node's counter too).
   */
  function Absorb(st: NodeState, p: Processed): (r: NodeState)
    requires st.stats.Aligned()
    ensures r.stats.Aligned()
  {
    NodeState(st.history + [p.game],
              st.totalGames + 1 + (if p.opening.variation.Some? then 1 else 0),
              UpdateFrom(st.stats, p.times, p.errors, 1, 0).0)
  }

  /** A node after taking the games in turn. */
  function Absorbed(st: NodeState, ps: seq<Processed>): (r: NodeState)
    requires st.stats.Aligned()
    ensures r.stats.Aligned()
  {
    if |ps| == 0 then st else Absorb(Absorbed(st, ps[..|ps| - 1]), ps[|ps| - 1])
  }

  /** The statistics after `update` of every game in turn. */
  function FeedAll(s: Stats, ps: seq<Processed>): (r: Stats)
    requires s.Aligned()
    ensures r.Aligned()
  {
    if |ps| == 0 then s else UpdateFrom(FeedAll(s, ps[..|ps| - 1]), ps[|ps| - 1].times, ps[|ps| - 1].errors, 1, 0).0
  }

  /** The main openings of the games. */
  function Mains(ps: seq<Processed>): (r: set<string>)
    ensures forall i :: 0 <= i < |ps| ==> ps[i].opening.main in r
    ensures forall m :: m in r ==> exists i :: 0 <= i < |ps| && ps[i].opening.main == m
  {
    if |ps| == 0 then {}
    else
      var r := Mains(ps[..|ps| - 1]) + {ps[|ps| - 1].opening.main};
      assert forall i :: 0 <= i < |ps| - 1 ==> ps[..|ps| - 1][i] == ps[i];
      r
  }

  /**
   * `order0` followed by the main openings of the games it lacks, each at
   * its first appearance: the keys a map listed by `order0` gains, in the
   * order it gains them, when the games are filed in turn.
   */
  function FirstMains(order0: seq<string>, ps: seq<Processed>): (r: seq<string>)
    ensures |order0| <= |r| && r[..|order0|] == order0
  {
    if |ps| == 0 then order0
    else
      var o := FirstMains(order0, ps[..|ps| - 1]);
      var main := ps[|ps| - 1].opening.main;
      if main in o then o else o + [main]
  }

  /**
   * The openings listed are those of `order0` and the games' main openings,
   * and, when `order0` lists each once, so does the result.
   */
  lemma {:induction false} FirstMainsKeys(order0: seq<string>, ps: seq<Processed>)
    ensures forall x :: x in FirstMains(order0, ps) <==> x in order0 || x in Mains(ps)
    ensures (forall i, j :: 0 <= i < j < |order0| ==> order0[i] != order0[j]) ==>
      forall i, j :: 0 <= i < j < |FirstMains(order0, ps)| ==> FirstMains(order0, ps)[i] != FirstMains(order0, ps)[j]
  {
    if |ps| > 0 {
      var prefix, p := ps[..|ps| - 1], ps[|ps| - 1];
      FirstMainsKeys(order0, prefix);
      MainsStep(prefix, p);
      assert prefix + [p] == ps;
    }
  }

  /** One more game adds its main opening at the end, unless it is listed already. */
  lemma FirstMainsStep(order0: seq<string>, ps: seq<Processed>, p: Processed)
    ensures FirstMains(order0, ps + [p]) ==
      var o := FirstMains(order0, ps); if p.opening.main in o then o else o + [p.opening.main]
  {
    assert (ps + [p])[..|ps|] == ps;
  }

  /** The order of a map's keys once `key` is filed: a new key goes to the end. */
  function OrderAfter(order: seq<string>, m: map<string, OpeningEntry>, key: string): (r: seq<string>)
    ensures OrderOf(m, order) ==> OrderOf(m[key := FreshEntry(key)], r)
  {
    if key in m then order else order + [key]
  }

  /** Filing one more game into a map listed by `FirstMains` keeps it listed so. */
  lemma FirstMainsFile(m: map<string, OpeningEntry>, order0: seq<string>, ps: seq<Processed>, p: Processed)
    requires OrderOf(m, FirstMains(order0, ps))
    ensures FirstMains(order0, ps + [p]) == OrderAfter(FirstMains(order0, ps), m, p.opening.main)
  {
    FirstMainsStep(order0, ps, p);
  }

  /** The games whose main opening is `opening`, in order. */
  function WithMain(ps: seq<Processed>, opening: string): (r: seq<Processed>)
    ensures |r| <= |ps|
    ensures forall i :: 0 <= i < |r| ==> r[i] in ps && r[i].opening.main == opening
  {
    if |ps| == 0 then []
    else WithMain(ps[..|ps| - 1], opening) + (if ps[|ps| - 1].opening.main == opening then [ps[|ps| - 1]] else [])
  }

  /** The games with a variation. */
  function WithVariation(ps: seq<Processed>): (r: seq<Processed>)
    ensures |r| <= |ps|
    ensures forall i :: 0 <= i < |r| ==> r[i] in ps && r[i].opening.variation.Some?
  {
    if |ps| == 0 then []
    else WithVariation(ps[..|ps| - 1]) + (if ps[|ps| - 1].opening.variation.Some? then [ps[|ps| - 1]] else [])
  }

  /** The games themselves. */
  function GameList(ps: seq<Processed>): (r: seq<SingleGame>)
    ensures |r| == |ps| && forall i :: 0 <= i < |ps| ==> r[i] == ps[i].game
  {
    seq(|ps|, i requires 0 <= i < |ps| => ps[i].game)
  }

  /** One more game extends the list of an opening exactly when it is that opening's. */
  lemma WithMainStep(ps: seq<Processed>, p: Processed, opening: string)
    ensures WithMain(ps + [p], opening) == WithMain(ps, opening) + (if p.opening.main == opening then [p] else [])
  {
    assert (ps + [p])[..|ps|] == ps;
  }

  /** Mains of one more game. */
  lemma MainsStep(ps: seq<Processed>, p: Processed)
    ensures Mains(ps + [p]) == Mains(ps) + {p.opening.main}
  {
    assert (ps + [p])[..|ps|] == ps;
  }

  /** After absorbing games the history is the old one followed by the games, in order. */
  lemma {:induction false} AbsorbedHistory(st: NodeState, ps: seq<Processed>)
    requires st.stats.Aligned()
    ensures Absorbed(st, ps).history == st.history + GameList(ps)
  {
    if |ps| > 0 {
      var prefix := ps[..|ps| - 1];
      AbsorbedHistory(st, prefix);
      assert GameList(prefix) + [ps[|ps| - 1].game] == GameList(ps);
    }
  }

  /** After absorbing games the statistics are the old ones fed every game. */
  lemma {:induction false} AbsorbedStats(st: NodeState, ps: seq<Processed>)
    requires st.stats.Aligned()
    ensures Absorbed(st, ps).stats == FeedAll(st.stats, ps)
  {
    if |ps| > 0 {
      AbsorbedStats(st, ps[..|ps| - 1]);
    }
  }

  /**
   * After absorbing games the counter grows by one per game and by one more
   * per game with a variation.
   */
  lemma {:induction false} AbsorbedCount(st: NodeState, ps: seq<Processed>)
    requires st.stats.Aligned()
    ensures Absorbed(st, ps).totalGames == st.totalGames + |ps| + |WithVariation(ps)|
  {
    if |ps| > 0 {
      AbsorbedCount(st, ps[..|ps| - 1]);
    }
  }

  /** Absorbing one more game is one more `Absorb`. */
  lemma AbsorbedStep(st: NodeState, ps: seq<Processed>, p: Processed)
    requires st.stats.Aligned()
    ensures Absorbed(st, ps + [p]) == Absorb(Absorbed(st, ps), p)
  {
    assert (ps + [p])[..|ps|] == ps;
  }

  /** Feeding one more game is one more `update`. */
  lemma FeedAllStep(s: Stats, ps: seq<Processed>, p: Processed)
    requires s.Aligned()
    ensures FeedAll(s, ps + [p]) == UpdateFrom(FeedAll(s, ps), p.times, p.errors, 1, 0).0
  {
    assert (ps + [p])[..|ps|] == ps;
  }

  /** `AbsorbNext` at one key. */
  lemma AbsorbKey(m0: map<string, OpeningEntry>, m: map<string, OpeningEntry>, ps: seq<Processed>, p: Processed, e: OpeningEntry,
                  key: string)
    requires EntriesOk(m0) && EntriesOk(m)
    requires NodeIn(m, key) == Absorbed(NodeIn(m0, key), WithMain(ps, key))
    requires e.node == Absorb(NodeIn(m, p.opening.main), p)
    ensures NodeIn(m[p.opening.main := e], key) == Absorbed(NodeIn(m0, key), WithMain(ps + [p], key))
  {
    WithMainStep(ps, p, key);
    if key == p.opening.main {
      AbsorbedStep(NodeIn(m0, key), WithMain(ps, key), p);
    } else {
      assert WithMain(ps + [p], key) == WithMain(ps, key) + [] == WithMain(ps, key);
    }
  }

  /**
   * One more game through `_updateOpening`: when its main opening's node
   * absorbs it, every main node is still its starting state having absorbed,
   * in turn, the games of its opening.
   */
  lemma AbsorbNext(m0: map<string, OpeningEntry>, m: map<string, OpeningEntry>, ps: seq<Processed>, p: Processed, e: OpeningEntry)
    requires EntriesOk(m0) && EntriesOk(m)
    requires forall key :: NodeIn(m, key) == Absorbed(NodeIn(m0, key), WithMain(ps, key))
    requires e.node == Absorb(NodeIn(m, p.opening.main), p)
    ensures forall key :: NodeIn(m[p.opening.main := e], key) == Absorbed(NodeIn(m0, key), WithMain(ps + [p], key))
  {
    forall key
      ensures NodeIn(m[p.opening.main := e], key) == Absorbed(NodeIn(m0, key), WithMain(ps + [p], key))
    {
      AbsorbKey(m0, m, ps, p, e, key);
    }
  }

  /**
   * The map `m` and the statistics `stats` are what feeding the games `ps`,
   * in turn, to the map `m0` and the statistics `s0` makes: the statistics
   * took every game, the map gained the games' main openings, and each main
   * node absorbed the games of its opening.
   */
  ghost predicate Fed(m: map<string, OpeningEntry>, stats: Stats, m0: map<string, OpeningEntry>, s0: Stats, ps: seq<Processed>) {
    EntriesOk(m0) && s0.Aligned() &&
    stats == FeedAll(s0, ps) &&
    m.Keys == m0.Keys + Mains(ps) &&
    forall key :: NodeIn(m, key) == Absorbed(NodeIn(m0, key), WithMain(ps, key))
  }

  /** Nothing fed yet: the starting map and statistics. */
  lemma FedStart(m0: map<string, OpeningEntry>, s0: Stats)
    requires EntriesOk(m0) && s0.Aligned()
    ensures Fed(m0, s0, m0, s0, [])
  {
    forall key
      ensures NodeIn(m0, key) == Absorbed(NodeIn(m0, key), WithMain([], key))
    {
    }
  }

  /**
   * One more game, absorbed by its main opening's node and fed to the
   * statistics: the map and the statistics are then those the games taken so
   * far and this one make.
   */
  lemma FedStep(m: map<string, OpeningEntry>, stats: Stats, m0: map<string, OpeningEntry>, s0: Stats, ps: seq<Processed>,
                p: Processed, e: OpeningEntry)
    requires Fed(m, stats, m0, s0, ps) && EntriesOk(m)
    requires e.node == Absorb(NodeIn(m, p.opening.main), p)
    ensures Fed(m[p.opening.main := e], UpdateFrom(stats, p.times, p.errors, 1, 0).0, m0, s0, ps + [p])
  {
    AbsorbNext(m0, m, ps, p, e);
    MainsStep(ps, p);
    FeedAllStep(s0, ps, p);
  }

  /** What `_updateOpening` does to the main node of an entry, when nothing fails, is to absorb the game. */
  lemma AddAbsorbs(e: OpeningEntry, p: Processed, name: Option<string>)
    requires EntryOk(e) && (name.Some? <==> p.opening.variation.Some?)
    requires OpeningAdd(e, p.game, name, p.times, p.errors).1.Pass?
    ensures OpeningAdd(e, p.game, name, p.times, p.errors).0.node == Absorb(e.node, p)
  {
  }

  /** `xs` lists every game of `s` exactly once. */
  ghost predicate ListsOnce(xs: seq<SingleGame>, s: set<SingleGame>) {
    |xs| == |s| &&
    (forall i, j :: 0 <= i < j < |xs| ==> xs[i] != xs[j]) &&
    (forall i :: 0 <= i < |xs| ==> xs[i] in s) &&
    (forall g :: g in s ==> g in xs)
  }

  /** Starting from an empty map, the map stays empty exactly when no game is taken. */
  lemma FedFromEmpty(m: map<string, OpeningEntry>, stats: Stats, s0: Stats, ps: seq<Processed>, s: set<SingleGame>)
    requires Fed(m, stats, map[], s0, ps) && ListsOnce(GameList(ps), s)
    ensures m == map[] <==> s == {}
  {
    if s != {} {
      assert ps[0].opening.main in m;
    }
  }

  /** The games of a set in the order iterating over it yields them; which order that is is left open. */
  method IterationOrder(s: set<SingleGame>) returns (xs: seq<SingleGame>)
    ensures ListsOnce(xs, s)
  {
    xs := [];
    var rest := s;
    while rest != {}
      invariant rest <= s && |xs| + |rest| == |s|
      invariant forall i :: 0 <= i < |xs| ==> xs[i] in s && xs[i] !in rest
      invariant forall i, j :: 0 <= i < j < |xs| ==> xs[i] != xs[j]
      invariant forall g :: g in s && g !in rest ==> g in xs
      decreases |rest|
    {
      var g :| g in rest;
      xs := xs + [g];
      rest := rest - {g};
    }
  }

  /** A game later in a list of distinct games is none of those taken so far. */
  lemma Unseen(xs: seq<SingleGame>, ps: seq<Processed>, n: nat)
    requires n < |xs| && GameList(ps) == xs[..n]
    requires forall i, j :: 0 <= i < j < |xs| ==> xs[i] != xs[j]
    ensures forall i :: 0 <= i < |ps| ==> ps[i].game != xs[n]
  {
    forall i | 0 <= i < |ps|
      ensures ps[i].game != xs[n]
    {
      assert ps[i].game == GameList(ps)[i] == xs[i];
    }
  }

  /** Taking the next game of the list extends the games taken by it. */
  lemma Taken(xs: seq<SingleGame>, ps: seq<Processed>, n: nat, p: Processed)
    requires n < |xs| && GameList(ps) == xs[..n] && p.game == xs[n]
    ensures GameList(ps + [p]) == xs[..n + 1]
  {
    assert GameList(ps + [p]) == GameList(ps) + [p.game];
    assert xs[..n + 1] == xs[..n] + [xs[n]];
  }

  /** Every game taken is analysed and is recorded with its lists as they now are. */
  ghost predicate Settled(ps: seq<Processed>)
    reads set i | 0 <= i < |ps| :: ps[i].game
  {
    forall i :: 0 <= i < |ps| ==> ps[i] == Snapshot(ps[i].game) && ps[i].game.isAnalyzed
  }

  /** Taking one more game leaves the games taken before as they were. */
  twostate lemma SettledStep(ps: seq<Processed>, new p: Processed)
    requires old(Settled(ps))
    requires forall i :: 0 <= i < |ps| ==> unchanged(ps[i].game)
    requires p == Snapshot(p.game) && p.game.isAnalyzed
    ensures Settled(ps + [p])
  {
    forall i | 0 <= i < |ps|
      ensures (ps + [p])[i] == Snapshot((ps + [p])[i].game) && (ps + [p])[i].game.isAnalyzed
    {
      assert old(ps[i] == Snapshot(ps[i].game) && ps[i].game.isAnalyzed);
    }
  }

  /** The entry of `key` in a map, or the fresh entry `_updateMainOpening` would make. */
  function EntryIn(m: map<string, OpeningEntry>, key: string): (e: OpeningEntry)
    ensures e.node == NodeIn(m, key)
  {
    if key in m then m[key] else FreshEntry(key)
  }

  /** The scores `_checkIfMostCommon` compares: each entry's `getTotalGames()`. */
  function Scores(entries: seq<OpeningEntry>): (r: seq<int>)
    ensures |r| == |entries| && forall i :: 0 <= i < |entries| ==> r[i] == entries[i].node.totalGames
  {
    seq(|entries|, i requires 0 <= i < |entries| => entries[i].node.totalGames)
  }

  /** `order` lists every key of `m` once. */
  predicate OrderOf(m: map<string, OpeningEntry>, order: seq<string>) {
    (forall i, j :: 0 <= i < j < |order| ==> order[i] != order[j]) &&
    (forall key :: key in m ==> key in order) &&
    (forall i :: 0 <= i < |order| ==> order[i] in m)
  }

  /** Every entry of `m` is well formed and is named by its key. */
  predicate EntriesOk(m: map<string, OpeningEntry>) {
    forall key :: key in m ==> m[key].name == key && EntryOk(m[key])
  }

  /** A well-formed entry, new ones at the end of the order, keeps the map and its order well formed. */
  lemma PutEntry(m: map<string, OpeningEntry>, order: seq<string>, key: string, e: OpeningEntry)
    requires OrderOf(m, order) && EntriesOk(m) && e.name == key && EntryOk(e)
    ensures OrderOf(m[key := e], if key in m then order else order + [key]) && EntriesOk(m[key := e])
  {
    assert forall i :: 0 <= i < |order| ==> (order + [key])[i] == order[i];
  }

  // ---------------------------------------------------------------------
  // The analysis object
  // ---------------------------------------------------------------------

  /** The answer of a validated query: the openings to report on and the rewritten `takeTop`, if given. */
  datatype Prepared = Prepared(openings: seq<OpeningEntry>, takeTop: Option<int>)

  class ChessAnalysis {
    const allGames: set<SingleGame>
    const moveStats: MoveStatistics
    const k: EnumConstants
    const c: GameConstants
    const q: QueryConstants
    var gamesToAnalyze: set<SingleGame>
    var openingsStats: map<string, OpeningEntry>
    var order: seq<string>                       // the keys of `openingsStats` in insertion order

    /** `order` lists every opening of the map once, in the order the map got them. */
    predicate OrderValid()
      reads this
    {
      OrderOf(openingsStats, order)
    }

    /** The loaded games are well formed; nothing the class does changes that. */
    predicate GamesOk() {
      forall g {:trigger g.Valid()} :: g in allGames ==> g.Valid()
    }

    predicate Valid()
      reads this, moveStats
    {
      moveStats.Valid() && gamesToAnalyze <= allGames && OrderOf(openingsStats, order) && EntriesOk(openingsStats)
    }

    /** The openings of the map, in insertion order (`list(self._openingsStats.values())`). */
    function Openings(): (r: seq<OpeningEntry>)
      reads this
      requires OrderValid()
      ensures |r| == |order| && forall i :: 0 <= i < |order| ==> r[i] == openingsStats[order[i]]
    {
      seq(|order|, i requires 0 <= i < |order| && order[i] in openingsStats reads this => openingsStats[order[i]])
    }

    /** The games come from the loaded files; nothing is filtered or analysed yet. */
    constructor (allGames: set<SingleGame>, k: EnumConstants, c: GameConstants, q: QueryConstants)
      requires forall g :: g in allGames ==> g.Valid()
      ensures Valid() && GamesOk()
      ensures this.allGames == allGames && this.k == k && this.c == c && this.q == q
      ensures gamesToAnalyze == {} && openingsStats == map[] && order == [] && moveStats.State() == EmptyStats()
    {
      this.allGames, this.k, this.c, this.q := allGames, k, c, q;
      moveStats := new MoveStatistics();
      gamesToAnalyze, openingsStats, order := {}, map[], [];
    }

    /** `_clear`: no openings, no games to analyse, empty statistics. */
    method Clear()
      requires Valid()
      modifies this, moveStats
      ensures Valid()
      ensures gamesToAnalyze == {} && openingsStats == map[] && order == [] && moveStats.State() == EmptyStats()
    {
      openingsStats, order := map[], [];
      gamesToAnalyze := {};
      moveStats.Clear();
    }

    /** `_validateClass`: a query with no opening left to report on is a ValueError. */
    function ValidateClass(): (r: Outcome)
      reads this
      ensures r.Fail? <==> |openingsStats| == 0
      ensures r.Fail? ==> r.error == ValueError
    {
      if openingsStats == map[] then Fail(ValueError) else Pass
    }

    /**
     * `_updateMainOpening`: the entry of `opening`, created on first use, takes
     * the game. The game is an analysed one, so reading its lists changes nothing.
     */
    method UpdateMainOpening(opening: string, game: SingleGame) returns (out: Outcome)
      requires Valid() && game in allGames && game.isAnalyzed
      modifies this
      ensures Valid() && gamesToAnalyze == old(gamesToAnalyze)
      ensures order == OrderAfter(old(order), old(openingsStats), opening)
      ensures openingsStats ==
        old(openingsStats)[opening := MainAdd(EntryIn(old(openingsStats), opening), game, game.timeSpentPerMove, game.errorPerMove).0]
      ensures out == MainAdd(EntryIn(old(openingsStats), opening), game, game.timeSpentPerMove, game.errorPerMove).1
    {
      var added := MainAdd(EntryIn(openingsStats, opening), game, game.timeSpentPerMove, game.errorPerMove);
      PutEntry(openingsStats, order, opening, added.0);
      if opening !in openingsStats {
        order := order + [opening];
      }
      openingsStats, out := openingsStats[opening := added.0], added.1;
    }

    /** `_updateVariation`: `addVariation` on the entry of `opening`, for an analysed game. */
    method UpdateVariation(opening: string, variation: string, game: SingleGame) returns (out: Outcome)
      requires Valid() && game in allGames && game.isAnalyzed && opening in openingsStats
      modifies this
      ensures Valid() && gamesToAnalyze == old(gamesToAnalyze) && order == old(order)
      ensures openingsStats ==
        old(openingsStats)[opening := VariationAdd(old(openingsStats[opening]), variation, game, game.timeSpentPerMove, game.errorPerMove).0]
      ensures out == VariationAdd(old(openingsStats[opening]), variation, game, game.timeSpentPerMove, game.errorPerMove).1
    {
      var added := VariationAdd(openingsStats[opening], variation, game, game.timeSpentPerMove, game.errorPerMove);
      PutEntry(openingsStats, order, opening, added.0);
      openingsStats, out := openingsStats[opening := added.0], added.1;
    }

    /**
     * `_updateOpening`: the main opening takes the game and, when the game has
     * a variation, so does the variation node keyed by the game's full name
     * (`getName()`). A failure stops the update.
     */
    method UpdateOpening(game: SingleGame, opening: string, variation: Option<string>) returns (out: Outcome)
      requires Valid() && game in allGames && game.isAnalyzed
      requires variation == game.openingVariation
      modifies this
      ensures Valid() && gamesToAnalyze == old(gamesToAnalyze)
      ensures order == OrderAfter(old(order), old(openingsStats), opening)
      ensures (openingsStats, out) ==
        (var r := OpeningAdd(EntryIn(old(openingsStats), opening), game, VariationKey(game), game.timeSpentPerMove, game.errorPerMove);
         (old(openingsStats)[opening := r.0], r.1))
    {
      out := UpdateMainOpening(opening, game);
      if out.Fail? {
        return;
      }
      if variation.Some? {
        ghost var afterMain := openingsStats;
        out := UpdateVariation(opening, NameOf(game.mainOpening, game.openingVariation, game.c.openingSep), game);
        UpdateTwice(old(openingsStats), opening, afterMain[opening], openingsStats[opening]);
      }
    }

    /**
     * One turn of the loop of `_initOpening`: analyse the game, feed it to the
     * overall statistics, then to the entry of its main opening.
     */
    method ProcessGame(game: SingleGame) returns (out: Outcome)
      requires Valid() && game in allGames && game.Valid()
      modifies this, moveStats, game
      ensures Valid() && gamesToAnalyze == old(gamesToAnalyze)
      ensures game.AnalyzedFrom(old(game.isAnalyzed), old(game.errorPerMove), old(game.timeSpentPerMove))
      ensures game.Opening() == old(game.Opening())
      ensures out.Pass? ==> moveStats.State() == UpdateFrom(old(moveStats.State()), game.timeSpentPerMove, game.errorPerMove, 1, 0).0
      ensures out.Pass? ==> order == OrderAfter(old(order), old(openingsStats), game.mainOpening)
      ensures out.Pass? ==>
        ((openingsStats, out) ==
           (var r := OpeningAdd(EntryIn(old(openingsStats), game.mainOpening), game, VariationKey(game), game.timeSpentPerMove, game.errorPerMove);
            (old(openingsStats)[game.mainOpening := r.0], r.1)))
    {
      var _ := game.AnalyzeGame();
      out := moveStats.Update(game, 1);
      if out.Fail? {
        return;
      }
      out := UpdateOpening(game, game.mainOpening, game.openingVariation);
    }

    /**
     * One turn of the loop of `_initOpening`, stated against the games taken
     * so far: the map and the statistics stay those the games, this one
     * added, make from the starting ones.
     */
    method TakeGame(g: SingleGame, ghost ps: seq<Processed>, ghost m0: map<string, OpeningEntry>, ghost s0: Stats)
        returns (out: Outcome, ghost p: Processed)
      requires Valid() && g in allGames && g.Valid()
      requires Fed(openingsStats, moveStats.State(), m0, s0, ps)
      requires Settled(ps) && forall i :: 0 <= i < |ps| ==> ps[i].game != g
      modifies this, moveStats, g
      ensures Valid() && gamesToAnalyze == old(gamesToAnalyze)
      ensures p.game == g && Settled(ps + [p])
      ensures out.Pass? ==> Fed(openingsStats, moveStats.State(), m0, s0, ps + [p])
      ensures out.Pass? ==> order == OrderAfter(old(order), old(openingsStats), g.mainOpening)
    {
      ghost var m := openingsStats;
      out := ProcessGame(g);
      p := Snapshot(g);
      if out.Pass? {
        AddAbsorbs(EntryIn(m, p.opening.main), p, VariationKey(g));
        FedStep(m, old(moveStats.State()), m0, s0, ps, p, openingsStats[p.opening.main]);
      }
      SettledStep(ps, p);
    }

    /**
     * The loop of `_initOpening` over the games in iteration order: each is
     * taken in turn until one fails. `processed` records the games taken,
     * the failing one included.
     */
    method TakeAll(todo: seq<SingleGame>) returns (out: Outcome, ghost processed: seq<Processed>)
      requires Valid() && GamesOk()
      requires forall i :: 0 <= i < |todo| ==> todo[i] in gamesToAnalyze
      requires forall i, j :: 0 <= i < j < |todo| ==> todo[i] != todo[j]
      modifies this, moveStats, gamesToAnalyze
      ensures Valid() && gamesToAnalyze == old(gamesToAnalyze)
      ensures Settled(processed)
      ensures out.Pass? ==> GameList(processed) == todo
      ensures out.Pass? ==> Fed(openingsStats, moveStats.State(), old(openingsStats), old(moveStats.State()), processed)
      ensures out.Pass? ==> order == FirstMains(old(order), processed)
    {
      processed := [];
      out := Pass;
      FedStart(openingsStats, moveStats.State());
      for n := 0 to |todo|
        invariant Valid() && gamesToAnalyze == old(gamesToAnalyze)
        invariant GameList(processed) == todo[..n]
        invariant Settled(processed)
        invariant Fed(openingsStats, moveStats.State(), old(openingsStats), old(moveStats.State()), processed)
        invariant order == FirstMains(old(order), processed)
      {
        ghost var p;
        ghost var m := openingsStats;
        Unseen(todo, processed, n);
        out, p := TakeGame(todo[n], processed, old(openingsStats), old(moveStats.State()));
        Taken(todo, processed, n, p);
        FirstMainsFile(m, old(order), processed, p);
        processed := processed + [p];
        if out.Fail? {
          return;
        }
      }
      assert todo[..|todo|] == todo;
    }

    /**
     * `_initOpening`: every game to analyse, in the order iterating over the
     * set yields them, is analysed, fed to the overall statistics and filed
     * under its opening; the openings of the map, in insertion order, are the
     * answer. The first failure stops it.
     */
    method InitOpening() returns (r: Result<seq<OpeningEntry>>, ghost processed: seq<Processed>)
      requires Valid() && GamesOk()
      modifies this, moveStats, gamesToAnalyze
      ensures Valid() && gamesToAnalyze == old(gamesToAnalyze)
      ensures Settled(processed)
      ensures r.Ok? ==> r.value == Openings()
      ensures r.Ok? ==> ListsOnce(GameList(processed), gamesToAnalyze)
      ensures r.Ok? ==> Fed(openingsStats, moveStats.State(), old(openingsStats), old(moveStats.State()), processed)
      ensures r.Ok? ==> order == FirstMains(old(order), processed)
    {
      var todo := IterationOrder(gamesToAnalyze);
      var out;
      out, processed := TakeAll(todo);
      if out.Fail? {
        return Err(out.error), processed;
      }
      r := Ok(Openings());
    }

    /**
     * The games after a pass that analyses those of `done`: each keeps its
     * opening fields, a game of `done` is analysed (once, from its state
     * before the pass) and any other is left as it was.
     */
    twostate predicate AnalysedOnly(done: set<SingleGame>)
      requires GamesOk()
      reads allGames
    {
      forall g :: g in allGames ==> g.Lazy() == if g in done then g.AfterAnalysis(old(g.Lazy())) else old(g.Lazy())
    }

    /**
     * `_filterOpenings`: all the games for `None`, otherwise those whose full
     * name or main opening is listed. Asking a game for its name analyses it,
     * so a list of names leaves every game analysed.
     */
    method FilterOpenings(names: Option<seq<string>>) returns (r: set<SingleGame>)
      requires GamesOk()
      modifies allGames
      ensures r == OpeningsCandidates(allGames, old(ViewsOf(allGames)), names)
      ensures AnalysedOnly(if names.Some? then allGames else {})
    {
      if names.None? {
        return allGames;
      }
      ghost var views := ViewsOf(allGames);
      ghost var before := map g | g in allGames :: g.Lazy();
      r := FilterListed(names.value, views, before);
    }

    /** The loop of `_filterOpenings` over the games, for a list of names. */
    method FilterListed(names: seq<string>, ghost views: map<SingleGame, OpeningState>, ghost before: map<SingleGame, LazyFields>)
        returns (r: set<SingleGame>)
      requires GamesOk() && Untouched(allGames, before)
      requires allGames <= views.Keys && forall g :: g in allGames ==> views[g] == before[g].opening
      modifies allGames
      ensures r == OpeningsCandidates(allGames, views, Some(names))
      ensures AnalysedFromSnapshot(allGames, before)
    {
      ghost var done := {};
      r := {};
      var rest := allGames;
      while rest != {}
        invariant rest <= allGames && done == allGames - rest
        invariant r == OpeningsCandidates(done, views, Some(names))
        invariant Untouched(rest, before) && AnalysedFromSnapshot(done, before)
        decreases |rest|
      {
        var g :| g in rest;
        var keep := Listed(g, names, rest, done, before);
        CandidatesStep(done, g, views, names, keep);
        MoveOver(allGames, rest, done, g);
        if keep {
          r := r + {g};
        }
        rest := rest - {g};
        done := done + {g};
      }
    }

    /**
     * One turn of the loop of `_filterOpenings`: is the game's full name or
     * main opening listed? Asking analyses the game, and no other game changes.
     */
    method Listed(g: SingleGame, names: seq<string>, ghost rest: set<SingleGame>, ghost done: set<SingleGame>,
                  ghost before: map<SingleGame, LazyFields>) returns (keep: bool)
      requires g.Valid() && g in rest && rest !! done
      requires Untouched(rest, before) && AnalysedFromSnapshot(done, before)
      modifies g
      ensures Untouched(rest - {g}, before) && AnalysedFromSnapshot(done + {g}, before)
      ensures var o := before[g].opening; keep <==> NameOf(o.main, o.variation, g.c.openingSep) in names || o.main in names
    {
      var name := g.GetName();
      var main := g.GetMainOpening();
      keep := name in names || main in names;
      forall h | h in rest - {g}
        ensures h in before && h.Lazy() == before[h]
      {
        assert old(h.Lazy()) == before[h];
      }
      forall h | h in done + {g}
        ensures h in before && h.Valid() && h.Lazy() == h.AfterAnalysis(before[h])
      {
        if h != g {
          assert old(h.Lazy()) == h.AfterAnalysis(before[h]);
        }
      }
    }

    /**
     * `_validateThenUpdateArgs`: the arguments are validated in order and each
     * filtering one yields its candidate set, the first failure stopping the
     * loop; the games to analyse are those every candidate set holds, and
     * analysing them rebuilds the openings. With no filtering argument
     * `set.intersection()` has no set to start from and raises TypeError.
     */
    method ValidateThenUpdateArgs(args: seq<Arg>) returns (r: Result<Prepared>, ghost processed: seq<Processed>)
      requires Valid() && GamesOk()
      modifies this, moveStats, allGames
      ensures Valid()
      ensures var gathered := Gather(args, allGames, old(ViewsOf(allGames)), k, c, q);
        match gathered
        case Err(e) => r == Err(e) && unchanged(this, moveStats) &&
          AnalysedOnly(if AnalysesGames(args, allGames, old(ViewsOf(allGames)), k, c, q) then allGames else {})
        case Ok(gd) =>
          if |gd.present| == 0 then r == Err(TypeError) && unchanged(this, moveStats) && AnalysedOnly({})
          else
            gamesToAnalyze == Intersection(gd.present) && Settled(processed) &&
            (r.Ok? ==> r.value == Prepared(Openings(), gd.takeTop) && ListsOnce(GameList(processed), gamesToAnalyze)) &&
            (r.Ok? ==> Fed(openingsStats, moveStats.State(), old(openingsStats), old(moveStats.State()), processed)) &&
            (r.Ok? ==> order == FirstMains(old(order), processed))
    {
      processed := [];
      var gathered := GatherArgs(args);
      if gathered.Err? {
        return Err(gathered.error), [];
      }
      if |gathered.value.present| == 0 {
        NoFilterAnalysesNothing(args, allGames, old(ViewsOf(allGames)), k, c, q);
        return Err(TypeError), [];
      }
      gamesToAnalyze := Intersection(gathered.value.present);
      var openings;
      openings, processed := InitOpening();
      if openings.Err? {
        return Err(openings.error), processed;
      }
      r := Ok(Prepared(openings.value, gathered.value.takeTop));
    }

    /**
     * The validation loop of `_validateThenUpdateArgs`. An openings argument
     * that names openings analyses every game; nothing else changes a game.
     */
    method GatherArgs(args: seq<Arg>) returns (r: Result<Gathered>)
      requires GamesOk()
      modifies allGames
      ensures r == Gather(args, allGames, old(ViewsOf(allGames)), k, c, q)
      ensures AnalysedOnly(if AnalysesGames(args, allGames, old(ViewsOf(allGames)), k, c, q) then allGames else {})
    {
      var views := ViewsOf(allGames);
      var present: seq<set<SingleGame>> := [];
      var takeTop: Option<int> := None;
      for i := 0 to |args|
        invariant Gather(args[..i], allGames, views, k, c, q) == Ok(Gathered(present, takeTop))
        invariant ViewsOf(allGames) == views
        invariant AnalysedOnly(if AnalysesGames(args[..i], allGames, views, k, c, q) then allGames else {})
      {
        assert args[..i + 1][..i] == args[..i];
        if args[i].OpeningsArg? {
          ghost var mid := map g | g in allGames :: g.Lazy();
          var s := FilterOpenings(args[i].names);
          forall g | g in allGames
            ensures g.Opening() == views[g]
          {
            assert g.Lazy().opening == mid[g].opening;
          }
          present := present + [s];
        } else {
          match Contribute(args[i], allGames, views, k, c, q)
          case Err(e) =>
            GatherKeepsError(args, allGames, views, k, c, q, i + 1);
            AnalysesGamesAfterError(args, allGames, views, k, c, q, i + 1);
            return Err(e);
          case Ok(Candidates(s)) =>
            present := present + [s];
          case Ok(TakeTop(t)) =>
            takeTop := Some(t);
          case Ok(Checked) =>
        }
      }
      assert args[..|args|] == args;
      r := Ok(Gathered(present, takeTop));
    }

    /**
     * The validating wrapper every query runs first: clear, validate and
     * filter, analyse, and insist on at least one opening. `attempt` is what
     * validating and analysing gave before the last check. Validation errors
     * come back as they are; when validation passes, the games to analyse are
     * those every candidate set holds, and an analysis that succeeds yields
     * the openings the taken games make from an empty map, in the order they
     * first appear, unless no game is left to analyse, which is a ValueError.
     */
    method PrepareQuery(args: seq<Arg>) returns (r: Result<Prepared>, ghost processed: seq<Processed>, ghost attempt: Result<Prepared>)
      requires Valid() && GamesOk()
      modifies this, moveStats, allGames
      ensures Valid()
      ensures var gathered := Gather(args, allGames, old(ViewsOf(allGames)), k, c, q);
        match gathered
        case Err(e) => r == attempt == Err(e)
        case Ok(gd) =>
          if |gd.present| == 0 then r == attempt == Err(TypeError)
          else
            gamesToAnalyze == Intersection(gd.present) && Settled(processed) &&
            (attempt.Err? ==> r == attempt) &&
            (attempt.Ok? ==>
               ListsOnce(GameList(processed), gamesToAnalyze) &&
               Fed(openingsStats, moveStats.State(), map[], EmptyStats(), processed) &&
               order == FirstMains([], processed) &&
               r == if gamesToAnalyze == {} then Err(ValueError) else Ok(Prepared(Openings(), gd.takeTop)))
      ensures r.Ok? ==> r.value.openings == Openings() && |r.value.openings| > 0
    {
      Clear();
      r, processed := ValidateThenUpdateArgs(args);
      attempt := r;
      if r.Err? {
        return;
      }
      FedFromEmpty(openingsStats, moveStats.State(), EmptyStats(), processed, gamesToAnalyze);
      var valid := ValidateClass();
      if valid.Fail? {
        return Err(valid.error), processed, attempt;
      }
      ghost var key :| key in openingsStats;
      assert key in order;
    }

    /**
     * `_getMostCommon`: the openings tied at the highest game count (counting
     * up from 0), from the given list or else from the whole map, sanitised.
     */
    method GetMostCommon(openings: Option<seq<OpeningEntry>>) returns (r: Sanitized<OpeningEntry>)
      requires OrderValid()
      ensures var list := if openings.Some? then openings.value else Openings();
        r == SanitizeResult(WithScore(list, Scores(list), TopScore(Scores(list))))
    {
      var list := if openings.Some? then openings.value else Openings();
      var topScore := 0;
      var result := [];
      for i := 0 to |list|
        invariant (topScore, result) == MostCommonAfter(list, Scores(list), i)
      {
        var step := CheckIfMostCommon(list[i], list[i].node.totalGames, result, topScore);
        topScore, result := step.0, step.1;
      }
      MostCommonTies(list, Scores(list), |list|);
      assert list[..|list|] == list && Scores(list)[..|list|] == Scores(list);
      r := SanitizeResult(result);
    }
  }
}
