# Chess opening statistics, modelled in Dafny

This project models the core of a Python library that reads a player's chess
games and reports statistics about the openings they play. The model covers
five parts of that core.

- **The enumerations** (`Enums.py`): colours and results, the record key of a
  result, and the mapping from numbers (or lists of numbers) to results.
- **One game** (`SingleGame.py`):
  - parsing the time control, the result and the clock tokens;
  - walking the moves against the opening book to find the main opening, the
    variation and the number of the user's moves spent in the book;
  - the per-move error from engine evaluations, and the lazily analysed
    getters.
- **Per-move statistics** (`MoveStats.py`): five parallel lists (total error,
  total time, sample count and the two averages) updated move by move when a
  game is added or removed.
- **One opening** (`OpeningData.py`): the games of an opening, its game
  counter, its per-move statistics and its variation nodes. It covers adding
  and removing games, the win/loss/draw record and the average move at which
  the user leaves the book.
- **The query layer** (`ChessAnalysis.py`):
  - validating the bound arguments of a query and turning each filtering
    argument into a candidate set of games;
  - intersecting those sets, analysing the surviving games and rebuilding the
    map from main opening to opening data;
  - the module-level helpers the queries use: top-N slicing, the per-move
    move bound and averages, Elo bands, points, grouping games, the most
    common openings and metadata extraction.

Three things outside the library become parameters.

- The chess engine: the answers it would give are the `evaluations` sequence
  of a game, one per engine call.
- The board library: every move is taken to be legal.
- The regular expressions: the clock-token matcher is a function-valued
  constant, and whether a game carries clock annotations is a given flag.

The constants module is not part of this model. Its values are records passed
as parameters (`EnumConstants`, `GameConstants`, `QueryConstants`). The first
two have a `Valid()` predicate that states what the code assumes of them:
distinct record keys, a non-digit time-control separator, a positive clock
stride.

Files, one Dafny module each:

| file | module | what it holds |
|---|---|---|
| wrappers.dfy | Wrappers | `Option`, `Result`, `Outcome` and the Python exception kinds |
| text.dfy | Text | the Python string operations the code relies on |
| py_values.dfy | PyValues | Python values of unknown type, for the validators |
| enums.dfy | Enums | `ChessColor`, `ChessResult`, `chessResultToStr`, `numToChessResult` |
| single_game.dfy | Game | the parsers and the class `SingleGame` |
| move_stats.dfy | MoveStats | the `Stats` value, its update functions and the class `MoveStatistics` |
| opening_data.dfy | Openings | the class `OpeningData` and the value functions that specify it |
| queries.dfy | Queries | the module-level helpers of `ChessAnalysis.py` |
| chess_analysis.dfy | Analysis | the class `ChessAnalysis`: query preparation and opening map |

State that the source updates in place is modelled as classes.

- `MoveStatistics` keeps its five lists as `seq` fields.
- `OpeningData` keeps its history, counter, statistics object and variation
  map as fields, with a `Repr` footprint.
- `SingleGame` keeps its lazily computed error and time lists.
- `ChessAnalysis` keeps the loaded games, the games to analyse, the overall
  statistics and the opening map.

Every state-changing method is tied to a value function of the old state
(`(State(), out) == UpdateFrom(old(State()), ...)`,
`(Node(), out) == AddEffect(old(Node()), ...)`). The properties are proved as
lemmas about those functions.

## Model

| member | source | states |
|---|---|---|
| Text.NatToString | ChessAnalysis/SingleGame.py:47-64 | `str(n)`: decimal digits, one digit exactly below 10, and a leading zero only for 0 itself |
| Text.NatToStringRoundTrip | ChessAnalysis/SingleGame.py:548-556 | the decimal text `str(n)` of a count reads back as that count, which the time-control round trip rests on |
| Text.SplitOnce | ChessAnalysis/SingleGame.py:100 | `split(sep, 1)` gives one part (the whole text) exactly when the separator is absent, else two parts around the first separator |
| Text.Find | ChessAnalysis/ChessAnalysis.py:19-20 | `find` returns the least match position at or after the start, or -1 when there is none |
| Text.StripLeft | ChessAnalysis/SingleGame.py:324 | `lstrip()` returns a suffix of the text; everything cut off is white space and what is left does not start with white space |
| Text.StripRight | ChessAnalysis/SingleGame.py:324 | `rstrip()` returns a prefix of the text; everything cut off is white space and what is left does not end with white space |
| Text.Strip | ChessAnalysis/SingleGame.py:424-427 | `strip()` returns a slice of the text such that everything before and after it is white space, and the slice neither starts nor ends with white space |
| Text.StripStripped | ChessAnalysis/SingleGame.py:622-632 | stripping a text with no white space at its ends changes nothing, and removes one leading blank |
| Text.SplitAll | ChessAnalysis/SingleGame.py:324 | `split(' ')` gives one piece more than the text has separators, and no piece holds a separator |
| Text.SplitAllJoin | ChessAnalysis/SingleGame.py:324 | the pieces of `split(' ')`, joined again with the separator, give back the text: splitting loses nothing |
| Text.JoinOnSplitAll | ChessAnalysis/SingleGame.py:324 | splitting a join of separator-free parts gives back the parts, so split and join are inverse on such lists |
| Text.SplitAllLeading | ChessAnalysis/SingleGame.py:374 | a leading separator adds an empty first piece, so `_validate_pgn`, which splits the unstripped text, counts one piece more than the stripped split of `_sanitize_pgn` for a text with a leading blank |
| Enums.ChessResultToStr | ChessAnalysis/Enums.py:17-25 | each result member maps to its own record key; anything that is not a member raises ValueError |
| Enums.ChessResultToStrInjective | ChessAnalysis/Enums.py:17-25 | distinct results get distinct record keys, so the key identifies the result |
| Enums.Translate | ChessAnalysis/Enums.py:29-30 | the value-to-member lookup finds a member exactly for a number equal to that member's value |
| Enums.FilterKeys | ChessAnalysis/Enums.py:33-34 | an iterable keeps its member values as members, in order, and drops the rest; an unhashable item raises TypeError |
| Enums.NumToChessResult | ChessAnalysis/Enums.py:28-34 | a number becomes a one-member tuple, or KeyError when it is no member value; `None` raises TypeError; a string yields no member |
| Enums.NumToChessResultRoundTrip | ChessAnalysis/Enums.py:28-34 | every member is recovered from its own value |
| Enums.FilterKeysAppend | ChessAnalysis/Enums.py:33-34 | filtering a concatenation filters each part: the order of the input is kept |
| Enums.FilterKeysMembers | ChessAnalysis/Enums.py:33-34 | a list filtered without error holds exactly the members that some item names |
| Enums.FilterKeysSingle | ChessAnalysis/Enums.py:33-34 | one item is kept, as its member, exactly when it is a member value |
| Game.ChangeTurn | ChessAnalysis/SingleGame.py:14-19 | the turn always changes colour |
| Game.ChangeTurnAlternates | ChessAnalysis/SingleGame.py:14-19 | turning after ply n hands the move to the side of ply n+1, and two turns change nothing |
| Game.AddMoveOrder | ChessAnalysis/SingleGame.py:47-64 | a Black ply (odd index) is unchanged; a White ply gets the decimal move number `index / 2 + 1`, with no leading zero, and ". " in front; the move is always the suffix |
| Game.ParseTime | ChessAnalysis/SingleGame.py:67-85 | the reading fails, with AttributeError, exactly on a token the clock matcher rejects |
| Game.ExtractTimeControl | ChessAnalysis/SingleGame.py:88-111 | without a separator, a digit string is the base time with no bonus; with one, both parts must be digit strings; anything else fails its assertion |
| Game.ExtractTimeControlRoundTrip | ChessAnalysis/SingleGame.py:88-111 | parsing the text `base+bonus` gives back the base time and the bonus |
| Game.SingleGame.GetTotalTimeControl | ChessAnalysis/SingleGame.py:548-556 | `getTotalTimeControl()` of a game parses back, through `extractTimeControl`, to the game's own base time and bonus |
| Game.ExtractGameResult | ChessAnalysis/SingleGame.py:237-253 | the draw token is a draw for either colour; the loss token is a loss for White and a win for Black; any other text before the separator is a win for White and a loss for Black |
| Game.ExtractGameResultPerspective | ChessAnalysis/SingleGame.py:237-253 | the same result text is a draw for both colours or a win for one exactly when it is a loss for the other |
| Game.CalculateEvalAsWritten | ChessAnalysis/SingleGame.py:380-397 | the scoring as written: centipawns pass through; mate in 1 scores the White mate value and mate in -1 the Black one |
| Game.BlackMateScoreReversed | ChessAnalysis/SingleGame.py:392-395 | as written, a slower Black mate scores below a faster one, ordering Black's mates the wrong way round |
| Game.CalculateEval | ChessAnalysis/SingleGame.py:380-397 | the corrected scoring agrees with the written one on centipawns and on mates in one (its ordering of longer mates is `MateScoreOrder`) |
| Game.ScoringsAgree | ChessAnalysis/SingleGame.py:380-397 | the written and the corrected scoring agree on every evaluation except a mate value of 0 or of -2 and below (Black mating in two or more), and differ on each of those when the punishment is not zero |
| Game.MateScoreOrder | ChessAnalysis/SingleGame.py:392-395 | corrected, a faster mate is at least as extreme as a slower one, for either colour |
| Game.MateScoreSymmetric | ChessAnalysis/SingleGame.py:392-395 | corrected, with opposite mate values, Black's mate in v scores the negation of White's |
| Game.MoveError | ChessAnalysis/SingleGame.py:399-408 | the error is the absolute evaluation change over the normaliser, not negative for a positive normaliser |
| Game.ParseOpeningInfo | ChessAnalysis/SingleGame.py:423-428 | a book entry has a variation exactly when it contains the separator; without one the main opening is the stripped entry; with one, the main opening and the variation are the stripped texts before and after the first separator, which put back together around it give the entry |
| Game.GetNameParses | ChessAnalysis/SingleGame.py:622-632 | parsing the full name `getName()` builds gives back the main opening and the variation |
| Game.VariationNameParses | ChessAnalysis/SingleGame.py:628-629 | a name with a variation splits back into its stripped main opening and variation |
| Game.EvenTokens | ChessAnalysis/SingleGame.py:316-327 | with clocks, the moves are the even-indexed tokens, one per move |
| Game.InitTimeControl | ChessAnalysis/SingleGame.py:352-369 | White starts from the full base time at the first move index; Black starts from White's first clock, and fewer than two tokens raise IndexError |
| Game.ClockTimesShape | ChessAnalysis/SingleGame.py:340-346 | a completed clock loop visits every `nextMoveJump`-th token to the end, each parsing; the first entry is the starting clock less the first reading, each later one the previous reading plus the bonus less the current one, over the normaliser |
| Game.Numbered | ChessAnalysis/SingleGame.py:289-314 | numbering the moves keeps one entry per move, each as `_addMoveOrder` writes it |
| Game.UpdateOpeningVariation | ChessAnalysis/SingleGame.py:410-429 | a book hit sets the main opening from the entry; an entry with the separator sets the variation to the stripped text after it, and one without leaves the variation as it was; the book-move counter is not touched |
| Game.BookHits | ChessAnalysis/SingleGame.py:274-287 | the book is looked up once per ply, with the numbered moves so far joined by spaces |
| Game.BookHitAt | ChessAnalysis/SingleGame.py:279-285 | extending the gameplay by one numbered move gives the key of the next ply's lookup |
| Game.ScanNoHit | ChessAnalysis/SingleGame.py:274-287 | with no book hit the opening state stays as it was |
| Game.ScanLastHit | ChessAnalysis/SingleGame.py:274-287 | the main opening is that of the last ply found in the book |
| Game.ScanLastVariation | ChessAnalysis/SingleGame.py:274-287 | the variation is that of the last book hit that names one |
| Game.ScanCountsUserHits | ChessAnalysis/SingleGame.py:274-287 | the moves leaving the opening count exactly the user's plies found in the book |
| Game.MoveErrorsShape | ChessAnalysis/SingleGame.py:289-314 | analysis yields one error per user ply, each the error between the evaluations before and after that ply, both scored by `_calculateEval` as written |
| Game.SingleGame.constructor | ChessAnalysis/SingleGame.py:154-198 | the given fields are stored; nothing is analysed; the opening is the initial unknown one |
| Game.SingleGame.AfterAnalysis | ChessAnalysis/SingleGame.py:114-128 | the fields after the analysis a getter runs first: analysed, with the opening untouched, and unchanged when the game was analysed before |
| Game.SingleGame.Create | ChessAnalysis/SingleGame.py:154-198 | a game is read exactly when the time control parses, the clock loop succeeds on the stripped and split text, and the unstripped text splits into enough pieces; its tokens are the stripped split, and its result, time-control fields, time list and opening state are those the parsers and the book scan give |
| Game.SingleGame.ExtractTimeManagement | ChessAnalysis/SingleGame.py:329-350 | the time list grows by the clock times of the user's moves; on success the moves are the even tokens |
| Game.SingleGame.SanitizePgn | ChessAnalysis/SingleGame.py:316-327 | a game with clocks runs the clock loop and keeps the even tokens; a game without clocks keeps all tokens |
| Game.SingleGame.UpdateOpeningAndVariation | ChessAnalysis/SingleGame.py:410-429 | reports whether the gameplay is in the book and updates the opening as the book entry says |
| Game.SingleGame.InitOpenings | ChessAnalysis/SingleGame.py:274-287 | after sanitising, the opening state is the scan of the book hits of every ply; a failing clock loop leaves it unchanged |
| Game.SingleGame.ScanBook | ChessAnalysis/SingleGame.py:278-287 | the loop over the moves leaves the opening state the scan function specifies |
| Game.SingleGame.AnalyzeGame | ChessAnalysis/SingleGame.py:289-314 | a game is analysed at most once: the first call fills the error list with the errors of the as-written scoring (and appends the clock times again); later calls change nothing |
| Game.SingleGame.GetTimeSpent | ChessAnalysis/SingleGame.py:558-567 | the time list, after the analysis the `validateAnalysis` decorator runs first if needed |
| Game.SingleGame.GetErrorPerMove | ChessAnalysis/SingleGame.py:569-578 | the error list, after analysis |
| Game.SingleGame.GetMainOpening | ChessAnalysis/SingleGame.py:495-504 | the main opening, after analysis, which does not change it |
| Game.SingleGame.GetVariation | ChessAnalysis/SingleGame.py:506-515 | the variation, after analysis, which does not change it |
| Game.SingleGame.GetMoveLeavingOpening | ChessAnalysis/SingleGame.py:517-526 | the user's moves in the book, after analysis |
| Game.SingleGame.GetName | ChessAnalysis/SingleGame.py:621-632 | the main opening, with the separator, a blank and the variation when there is one |
| Game.SingleGame.GetElo | ChessAnalysis/SingleGame.py:446-456 | the user's rating is one of the game's two ratings, and, when they differ, it is White's exactly when the user plays White |
| Game.SingleGame.GetOpponentElo | ChessAnalysis/SingleGame.py:458-468 | the user's and the opponent's ratings are the game's two ratings, one each |
| Game.EloSides | ChessAnalysis/SingleGame.py:446-468 | the user's and the opponent's ratings are the two players' ratings, by the user's colour |
| MoveStats.OneMoveUpdate | ChessAnalysis/MoveStats.py:56-74 | a negative index raises ValueError and changes nothing; a new index appends one entry; a seen index whose count reaches zero fails the division |
| MoveStats.MoveStatistics.GetAvgError | ChessAnalysis/MoveStats.py:145-152 | on consistent statistics, one average per move index: its total error over the number of games reaching it |
| MoveStats.MoveStatistics.GetAvgTime | ChessAnalysis/MoveStats.py:154-161 | on consistent statistics, one average per move index: its total time over the number of games reaching it |
| MoveStats.MoveStatistics.GetTotalMoves | ChessAnalysis/MoveStats.py:163-170 | on consistent statistics, one count per averaged move index, each at least one game |
| MoveStats.ConsistentAverages | ChessAnalysis/MoveStats.py:111-119 | on consistent statistics every average times its count is its total |
| MoveStats.AddKeepsConsistent | ChessAnalysis/MoveStats.py:56-74 | adding one move at a seen index or the next new one succeeds and keeps the statistics consistent |
| MoveStats.AddOneMove | ChessAnalysis/MoveStats.py:50-54 | one more added move keeps the statistics consistent and extends the added prefix by one |
| MoveStats.AddRemainingMoves | ChessAnalysis/MoveStats.py:50-54 | the rest of the loop of an add succeeds and covers every visited index |
| MoveStats.AddGameStats | ChessAnalysis/MoveStats.py:41-54 | adding a game never fails on consistent statistics and keeps them consistent; each visited index gains the move's error, time and one sample; the others are untouched |
| MoveStats.AddToEmpty | ChessAnalysis/MoveStats.py:41-54 | added to empty statistics, a game gives one entry per visited move, holding that move's error and time, seen once |
| MoveStats.NoTimesNoChange | ChessAnalysis/MoveStats.py:50-54 | a game with no time entries leaves the statistics unchanged |
| MoveStats.OneMoveAtSeen | ChessAnalysis/MoveStats.py:121-133 | at a seen index, one move adds its error, its time and `u` samples to that index's totals |
| MoveStats.RemovalFailsAtSecondMove | ChessAnalysis/MoveStats.py:50-54 | a removal negates the index, so any removal visiting two or more moves fails |
| MoveStats.RemovalFirstMove | ChessAnalysis/MoveStats.py:50-74 | a removal changes only index 0: the error is added (not subtracted), the time subtracted and the count lowered by one; a count reaching zero fails the division |
| MoveStats.RemovalStopsAfterFirst | ChessAnalysis/MoveStats.py:50-74 | a removal's statistics are those its first move leaves |
| MoveStats.MoveStatistics.constructor | ChessAnalysis/MoveStats.py:11-16 | all five lists start empty |
| MoveStats.MoveStatistics.Update | ChessAnalysis/MoveStats.py:41-54 | reads the game's lists (analysing it if needed) and leaves the statistics and the outcome the update function gives |
| MoveStats.MoveStatistics.UpdateMoves | ChessAnalysis/MoveStats.py:50-54 | the loop over the index pairs leaves the statistics and the outcome the update function gives |
| MoveStats.MoveStatistics.UpdateOneMove | ChessAnalysis/MoveStats.py:56-74 | one move changes the five lists as the one-move function says |
| MoveStats.MoveStatistics.InitAvgFields | ChessAnalysis/MoveStats.py:88-97 | both average lists grow by the move's error and time; the totals are untouched |
| MoveStats.MoveStatistics.InitTotalFields | ChessAnalysis/MoveStats.py:99-109 | the total lists grow by the error, the time and one sample; the averages are untouched |
| MoveStats.MoveStatistics.UpdateAvgFields | ChessAnalysis/MoveStats.py:111-119 | the averages at the index become the totals over the count; a zero count raises ZeroDivisionError and changes nothing |
| MoveStats.MoveStatistics.UpdateTotalFields | ChessAnalysis/MoveStats.py:121-133 | the totals at the index gain the error, the time and `u` samples; nothing else changes |
| MoveStats.MoveStatistics.Clear | ChessAnalysis/MoveStats.py:135-143 | all five lists become empty |
| Openings.RemoveFirst | ChessAnalysis/OpeningData.py:104 | `list.remove` drops the first occurrence only: one element fewer and the same multiset less that element |
| Openings.RemoveFirstAppend | ChessAnalysis/OpeningData.py:63-107 | removing a game just appended to a history that did not hold it gives back the history |
| Openings.AddEffectShape | ChessAnalysis/OpeningData.py:63-72 | adding a game never fails on consistent statistics: the history gains the game, the counter grows by one and the statistics take the game's moves |
| Openings.RemovalEffectShape | ChessAnalysis/OpeningData.py:90-105 | removing a game not in the history raises ValueError and changes nothing; otherwise exactly one occurrence leaves the history, the statistics take the removal, and the counter drops exactly when that update passes |
| Openings.AddEachCounts | ChessAnalysis/OpeningData.py:192-199 | a run of adds appends the games in order and raises the counter `getTotalGames` reports by their number, so on a node built by adds alone the counter equals `len` |
| Openings.OpeningData.Len | ChessAnalysis/OpeningData.py:59-61 | `len` of a node is the number of games in its history, the total of its wins, losses and draws |
| Openings.OpeningData.GetTimeSpent | ChessAnalysis/OpeningData.py:118-125 | on consistent statistics, the node's average time per move index, total over count |
| Openings.OpeningData.GetErrorPerMove | ChessAnalysis/OpeningData.py:127-134 | on consistent statistics, the node's average error per move index, total over count |
| Openings.OpeningData.GetTotalMoves | ChessAnalysis/OpeningData.py:148-155 | on consistent statistics, the node's count per averaged move index, each at least one game |
| Openings.AddThenRemove | ChessAnalysis/OpeningData.py:63-107 | adding and then removing a game without time entries restores the node |
| Openings.RecordPartition | ChessAnalysis/OpeningData.py:157-172 | every game counts as exactly one of win, loss and draw |
| Openings.Record | ChessAnalysis/OpeningData.py:157-172 | the record has the three result keys and its counts add up to the number of games |
| Openings.CeilDiv | ChessAnalysis/OpeningData.py:174-184 | `math.ceil(a / b)`: the least multiple count of b reaching a |
| Openings.OpeningData.constructor | ChessAnalysis/OpeningData.py:27-41 | a named node with no game, a zero counter, empty statistics and no variation |
| Openings.OpeningData.IncreaseTotalGames | ChessAnalysis/OpeningData.py:186-187 | the counter grows by one; nothing else changes |
| Openings.OpeningData.DecreaseTotalGames | ChessAnalysis/OpeningData.py:189-190 | the counter drops by one; nothing else changes |
| Openings.OpeningData.AddGame | ChessAnalysis/OpeningData.py:63-72 | the node ends as the add function says: history plus the game, counter plus one, statistics updated with the game's moves |
| Openings.OpeningData.AddVariation | ChessAnalysis/OpeningData.py:74-88 | on a variation node, ValueError; otherwise the variation node is made on first use and takes the game, and this node's own counter grows by one too |
| Openings.OpeningData.AddToOpening | ChessAnalysis/OpeningData.py:80-88 | the named variation node, new or old, takes the game; the other variations are untouched |
| Openings.OpeningData.EnsureVariation | ChessAnalysis/OpeningData.py:80-86 | the variation node exists afterwards, named with the separator; an existing one is kept |
| Openings.OpeningData.AttachVariation | ChessAnalysis/OpeningData.py:84-86 | the new node joins the variation map under its name |
| Openings.OpeningData.AddToVariation | ChessAnalysis/OpeningData.py:87 | the variation node takes the game as `addGame` would; the other nodes are unchanged |
| Openings.OpeningData.RemoveGame | ChessAnalysis/OpeningData.py:90-107 | a game not in the history raises ValueError and changes nothing; otherwise the node ends as the removal function says, and, when that passes on an opening node, the variation node named by the game's variation does too (KeyError when there is none); every other variation is unchanged |
| Openings.OpeningData.RemoveFromOpening | ChessAnalysis/OpeningData.py:97-107 | removal from the variation named by the game's variation, when there is one |
| Openings.OpeningData.RemoveFromVariation | ChessAnalysis/OpeningData.py:99-102 | the variation node ends as the removal function says |
| Openings.OpeningData.RemoveOwn | ChessAnalysis/OpeningData.py:100-105 | the node's own removal: an unknown game raises ValueError and changes nothing |
| Openings.OpeningData.TakeOut | ChessAnalysis/OpeningData.py:103-105 | the game's first occurrence leaves the history, the statistics take the removal, and the counter drops only if that update passed |
| Openings.OpeningData.Forget | ChessAnalysis/OpeningData.py:102-106 | the first occurrence of the game leaves the history, and the counter drops when asked |
| Openings.OpeningData.GetRecord | ChessAnalysis/OpeningData.py:157-172 | the record is the count of wins, losses and draws over the history |
| Openings.OpeningData.Leaving | ChessAnalysis/OpeningData.py:174-184 | the book moves of the games, one per game, in order |
| Openings.OpeningData.GetAvgMoveLeavingOpening | ChessAnalysis/OpeningData.py:174-184 | an empty history raises ZeroDivisionError; otherwise the ceiling of the mean of the games' book moves |
| Openings.OpeningData.LeavingTotal | ChessAnalysis/OpeningData.py:181-183 | the loop sums the games' book moves, analysing each game |
| Openings.OpeningData.MovesInBook | ChessAnalysis/OpeningData.py:182 | one game's book moves, after its analysis, which leaves the opening fields alone |
| Openings.OpeningData.GetVariation | ChessAnalysis/OpeningData.py:201-215 | no name gives all variation nodes; a name gives its node, or nothing when there is none |
| Queries.UpdateSlicedItems | ChessAnalysis/ChessAnalysis.py:428-452 | an item at or above the threshold is taken; one below is taken, becomes the threshold and counts as a drop only while fewer than `takeTop` drops happened |
| Queries.Select | ChessAnalysis/ChessAnalysis.py:407-425 | the items taken are items of the list, no more of them than the list has |
| Queries.SliceAfter | ChessAnalysis/ChessAnalysis.py:416-425 | the slicing loop takes the first item, and its threshold is always a value seen so far |
| Queries.SlicedTopItems | ChessAnalysis/ChessAnalysis.py:407-425 | an empty list raises IndexError on its first item; otherwise the loop keeps the items the slice function keeps |
| Queries.SlicedKeepsFirst | ChessAnalysis/ChessAnalysis.py:407-425 | the slice always keeps the first item and keeps only items of the list |
| Queries.SelectCount | ChessAnalysis/ChessAnalysis.py:407-425 | the number of items kept is the number of positive decisions |
| Queries.SliceCounterBound | ChessAnalysis/ChessAnalysis.py:428-452 | the drop count never passes `takeTop` and grows only with items taken |
| Queries.SlicedKeepsAllWhenLarge | ChessAnalysis/ChessAnalysis.py:407-425 | a `takeTop` at least the list length less one keeps the whole list |
| Queries.SliceDecreasingCount | ChessAnalysis/ChessAnalysis.py:428-452 | on strictly decreasing values, every item after the first is a drop, so `takeTop - c0 + 1` items are kept (or all, if fewer), and the threshold is one of the values seen |
| Queries.SliceFirst | ChessAnalysis/ChessAnalysis.py:418-424 | the first item is always taken, becomes the threshold and counts no drop |
| Queries.SliceDropStep | ChessAnalysis/ChessAnalysis.py:428-452 | an item below the threshold is taken exactly while fewer than `takeTop - c0 + 1` items are, and the drop count keeps pace |
| Queries.SelectStep | ChessAnalysis/ChessAnalysis.py:421-424 | deciding one more item appends it to the kept items exactly when it is taken |
| Queries.SlicedDecreasingAsWritten | ChessAnalysis/ChessAnalysis.py:444-451 | as written, a strictly decreasing list longer than `takeTop` keeps `takeTop + 1` items |
| Queries.SlicedTopItemsKeepsOneTooMany | ChessAnalysis/ChessAnalysis.py:444-451 | three decreasing values with `takeTop` 1 keep two items |
| Queries.SlicedTopItemsCorrected | ChessAnalysis/ChessAnalysis.py:407-425 | the corrected slice: the first item counts as the first of the kept values; an empty list still raises IndexError |
| Queries.SlicedDecreasingCorrected | ChessAnalysis/ChessAnalysis.py:407-425 | corrected, a strictly decreasing list of at least `takeTop` items keeps exactly `takeTop` |
| Queries.Longest | ChessAnalysis/ChessAnalysis.py:78-97 | the longest count list's length, or 0 for none |
| Queries.InitTotalTimesPlayed | ChessAnalysis/ChessAnalysis.py:100-116 | one summed count per index below the given length; an opening with more entries raises IndexError |
| Queries.FirstUnder | ChessAnalysis/ChessAnalysis.py:90-97 | the first index from the start whose summed count is below the bound, or the end |
| Queries.MoveBound | ChessAnalysis/ChessAnalysis.py:78-97 | every index below the result reaches the bound in summed count, and the result itself does not unless it is the longest length |
| Queries.CheckMoveOverBound | ChessAnalysis/ChessAnalysis.py:78-97 | the loop returns the move bound |
| Queries.AvgEntries | ChessAnalysis/ChessAnalysis.py:119-142 | the corrected average per move: for each index below the bound that some list reaches, its decimal label and the mean over the lists that reach it, and nothing else |
| Queries.AvgPerMoveAsWritten | ChessAnalysis/ChessAnalysis.py:119-142 | as written, any opening whose list is longer than the move bound raises IndexError; otherwise the averages are the corrected ones |
| Queries.CalculateAvgPerMove | ChessAnalysis/ChessAnalysis.py:119-142 | the accumulation loops give the as-written result |
| Queries.AvgPerMoveOverrun | ChessAnalysis/ChessAnalysis.py:134-139 | two openings whose counts put the bound at move 1 make the longer list index past the sums, where one average was meant |
| Queries.TotalGames | ChessAnalysis/ChessAnalysis.py:543-544 | wins plus losses plus draws; a missing key raises KeyError |
| Queries.TotalGamesOfRecord | ChessAnalysis/OpeningData.py:157-172 | the record of a list of games totals the number of games |
| Queries.AveragePoints | ChessAnalysis/ChessAnalysis.py:312-315 | a missing key raises KeyError; a record without games scores 0 |
| Queries.AveragePointsScaled | ChessAnalysis/ChessAnalysis.py:312-315 | over a record with games, the average times the number of games is wins plus the draw value of the draws |
| Queries.AveragePointsBounds | ChessAnalysis/ChessAnalysis.py:312-315 | with counts that are not negative and a draw worth between nothing and a win, the average lies between 0 and 1 |
| Queries.MinOf | ChessAnalysis/ChessAnalysis.py:338 | the least rating, one of the ratings |
| Queries.MaxOf | ChessAnalysis/ChessAnalysis.py:339 | the greatest rating, one of the ratings |
| Queries.InitEloDict | ChessAnalysis/ChessAnalysis.py:330-362 | with no games, ValueError; otherwise bands of width `setGap` from the lowest rating, each starting where the previous ends, all but the last ending below the highest rating and the last reaching it, each with the default record |
| Queries.ChainGrows | ChessAnalysis/ChessAnalysis.py:350-358 | the next band starts where the chain ends |
| Queries.FindKeyInterval | ChessAnalysis/ChessAnalysis.py:306-309 | the first band holding the rating, or nothing when no band holds it |
| Queries.EveryEloHasBand | ChessAnalysis/ChessAnalysis.py:306-362 | every rating between the lowest and the highest falls in a band of the chain |
| Queries.UpdateResult | ChessAnalysis/ChessAnalysis.py:318-327 | a rating in no band raises KeyError; otherwise only the first band holding it gains one game under the result's key |
| Queries.UpdateResultAddsOneGame | ChessAnalysis/ChessAnalysis.py:318-327 | the band that takes the game grows its total by one, and every other band keeps its total |
| Queries.GroupIndex | ChessAnalysis/ChessAnalysis.py:368-370 | the position of the group with a key, or nothing exactly when no group has it |
| Queries.AddToGroup | ChessAnalysis/ChessAnalysis.py:368-370 | `games[key].append(x)` on a dictionary of lists: an existing group grows, or a new one is added at the end; keys stay distinct |
| Queries.GroupBy | ChessAnalysis/ChessAnalysis.py:365-383 | one group per key with distinct keys, covering every game |
| Queries.GroupByContents | ChessAnalysis/ChessAnalysis.py:365-383 | each group holds exactly the games with its key, in order, and at least one |
| Queries.GroupByPartition | ChessAnalysis/ChessAnalysis.py:365-383 | every game lies in the group of its key and in no other |
| Queries.KeepGroups | ChessAnalysis/ChessAnalysis.py:371-372 | the groups kept are the groups with at least `gamesBound` games |
| Queries.KeepGroupsCount | ChessAnalysis/ChessAnalysis.py:371-372 | a group reaching the bound is kept as many times as the input holds it, and any other group not at all |
| Queries.KeepGroupsAppend | ChessAnalysis/ChessAnalysis.py:371-372 | filtering a concatenation filters each part, so the kept groups stay in their input order |
| Queries.KeepGroupsMember | ChessAnalysis/ChessAnalysis.py:371-372 | a group survives exactly when it holds at least the bound |
| Queries.KeepGroupsDistinct | ChessAnalysis/ChessAnalysis.py:371-372 | the comprehension keeps the keys of the groups distinct |
| Queries.KeyedIn | ChessAnalysis/ChessAnalysis.py:366-369 | the games appended under a key are exactly the games that have it |
| Queries.KeptGroups | ChessAnalysis/ChessAnalysis.py:365-383 | after the grouping and the bound: distinct keys, each group exactly the games of its key and at least the bound of them, and a key has a group exactly when it has that many games |
| Queries.KeptGroup | ChessAnalysis/ChessAnalysis.py:365-383 | one kept group holds exactly the games of its key |
| Queries.KeptKey | ChessAnalysis/ChessAnalysis.py:365-383 | a game's key has a kept group exactly when that key has at least the bound of games |
| Queries.GamesOf | ChessAnalysis/ChessAnalysis.py:366-367 | the loop over the openings and their games visits every game of every opening's history, and no other |
| Queries.InitGamesAgainstPlayer | ChessAnalysis/ChessAnalysis.py:365-372 | every game of every opening lies in exactly the group of its opponent, which holds exactly that opponent's games in order; an opponent's group is returned exactly when it reaches `gamesBound` |
| Queries.InitGamesFilteredTimeControl | ChessAnalysis/ChessAnalysis.py:375-383 | the same, grouping by the time control text |
| Queries.RemoveGamesUnderBound | ChessAnalysis/ChessAnalysis.py:249-250 | the openings kept are exactly those with at least `bound` games, in order |
| Queries.RemoveGamesUnderBoundCount | ChessAnalysis/ChessAnalysis.py:249-250 | an opening reaching the bound is kept as many times as the list holds it, and any other opening not at all |
| Queries.RemoveGamesUnderBoundAppend | ChessAnalysis/ChessAnalysis.py:249-250 | filtering a concatenation filters each part, so the kept openings stay in their list order |
| Queries.RemoveGamesUnderBoundKeepsAll | ChessAnalysis/ChessAnalysis.py:249-250 | a list whose openings all reach the bound is kept whole |
| Queries.RemoveGamesUnderBoundIdempotent | ChessAnalysis/ChessAnalysis.py:249-250 | applying the bound twice keeps what applying it once kept |
| Queries.CheckIfMostCommon | ChessAnalysis/ChessAnalysis.py:559-565 | a higher score starts a new list, an equal one joins it, a lower one changes nothing |
| Queries.TopScore | ChessAnalysis/ChessAnalysis.py:927-943 | the highest score, never below the starting 0 |
| Queries.MostCommonTies | ChessAnalysis/ChessAnalysis.py:927-943 | the fold keeps exactly the items tied at the top score (or at 0), in their order |
| Queries.SanitizeResult | ChessAnalysis/ChessAnalysis.py:568-574 | an empty result stays an empty list, one item is returned alone, two or more as a tuple |
| Queries.SanitizeRoundTrip | ChessAnalysis/ChessAnalysis.py:568-574 | sanitising loses nothing: the elements come back in order |
| Queries.ValidateOpponent | ChessAnalysis/ChessAnalysis.py:253-273 | `None`, a string or a tuple of strings passes; anything else raises ValueError |
| Queries.ValidateThenUpdateTakeTop | ChessAnalysis/ChessAnalysis.py:523-535 | an integer that is not negative passes, and the minimum is replaced by the maximum; anything else fails its assertion |
| Queries.TakeTopPositive | ChessAnalysis/ChessAnalysis.py:523-535 | with 0 standing for "as many as possible", a validated `takeTop` is positive |
| Queries.ValidateResult | ChessAnalysis/ChessAnalysis.py:281-303 | `None` and tuples of numbers pass; a single number raises TypeError, because `result not in result` asks a number for membership; a string, a list or a tuple with a non-number raises ValueError |
| Queries.ValidateSetGap | ChessAnalysis/ChessAnalysis.py:276-278 | a false gap (`None`, 0, an empty text) or a number below the minimum raises ValueError; any other non-number fails the comparison with TypeError; an integer passes exactly when non-zero and at least the minimum |
| Queries.ValidateEloBound | ChessAnalysis/ChessAnalysis.py:547-549 | an integer of at least the minimum passes; anything else fails its assertion |
| Queries.ValidateBool | ChessAnalysis/ChessAnalysis.py:519-529 | only a `bool` passes the reverse and plot checks |
| Queries.ExtractMetaData | ChessAnalysis/ChessAnalysis.py:17-21 | the value read after a tag never holds a quote and is a piece of the text, whatever `find` returns |
| Queries.ExtractMetaDataField | ChessAnalysis/ChessAnalysis.py:17-21 | a tag whose first occurrence is followed by a quoted value yields that value |
| Queries.IsAtrophiedGame | ChessAnalysis/ChessAnalysis.py:229-246 | a game text is atrophied exactly when the flag occurs nowhere in it; an empty flag raises ValueError |
| Analysis.OpeningsCandidates | ChessAnalysis/ChessAnalysis.py:768-781 | every game for `None`; otherwise exactly the games whose full name or main opening is listed |
| Analysis.OpponentCandidates | ChessAnalysis/ChessAnalysis.py:744-754 | the opponent is validated first; `None` keeps every game; a string keeps the games whose opponent occurs in it; a tuple those whose opponent is one of its strings |
| Analysis.TimeControlCandidates | ChessAnalysis/ChessAnalysis.py:898-905 | every game for `None`; for a text, exactly the games with the parsed base time and bonus, and a malformed text fails its assertion; any other value fails `extractTimeControl`'s string assertion with AssertionError |
| Analysis.Contribute | ChessAnalysis/ChessAnalysis.py:826-892 | for each argument, its validation and its candidate set: results first pass `_validateResult` and then name members, dates by order, ratings by the bound; `takeTop` rewritten; the flags and the gap only checked, the gap's error being `_validateSetGap`'s |
| Analysis.ResultFilterAccepts | ChessAnalysis/ChessAnalysis.py:888-892 | a result filter passes exactly when it is a tuple of numbers, and keeps the games whose result one of its items names |
| Analysis.Gather | ChessAnalysis/ChessAnalysis.py:826-865 | the candidate sets of the filtering arguments, in order, each within the games |
| Analysis.GatherOkIff | ChessAnalysis/ChessAnalysis.py:826-865 | the loop succeeds exactly when every argument passes its validation |
| Analysis.GatherStopsAtFirstError | ChessAnalysis/ChessAnalysis.py:826-865 | a failing argument anywhere makes the whole loop fail |
| Analysis.GatherKeepsError | ChessAnalysis/ChessAnalysis.py:826-865 | the first failure is the error the loop raises |
| Analysis.Intersection | ChessAnalysis/ChessAnalysis.py:867 | `set.intersection`: a game survives exactly when every candidate set holds it |
| Analysis.NoOpeningsKeepsAll | ChessAnalysis/ChessAnalysis.py:768-781 | `openings=None` lets every game through |
| Analysis.MainAdd | ChessAnalysis/ChessAnalysis.py:803-813 | the entry's main node takes the game; the variations are untouched |
| Analysis.VariationAdd | ChessAnalysis/ChessAnalysis.py:907-908 | the variation node takes the game and the main counter grows by one |
| Analysis.OpeningAdd | ChessAnalysis/ChessAnalysis.py:739-742 | on success the main node holds the game once more in history and statistics, and counts it twice when it has a variation |
| Analysis.VariationKey | ChessAnalysis/ChessAnalysis.py:739-742 | a game's variation is filed under its full name, exactly when it has a variation |
| Analysis.AbsorbedHistory | ChessAnalysis/ChessAnalysis.py:718-737 | after the loop, each main node's history is the old one followed by its games, in order |
| Analysis.AbsorbedStats | ChessAnalysis/ChessAnalysis.py:718-737 | after the loop, each main node's statistics are the old ones fed each of its games |
| Analysis.AbsorbedCount | ChessAnalysis/ChessAnalysis.py:718-737 | after the loop, each main node's counter grows by one per game and one more per game with a variation |
| Analysis.AddAbsorbs | ChessAnalysis/ChessAnalysis.py:739-742 | what `_updateOpening` does to the main node, when it succeeds, is to absorb the game |
| Analysis.AbsorbNext | ChessAnalysis/ChessAnalysis.py:729-735 | after one more game, every main node is still its start having absorbed the games of its opening |
| Analysis.FedStep | ChessAnalysis/ChessAnalysis.py:729-735 | one more game keeps the map and the overall statistics those of the games taken so far |
| Analysis.IterationOrder | ChessAnalysis/ChessAnalysis.py:729 | iterating over the set lists every game once |
| Analysis.PutEntry | ChessAnalysis/ChessAnalysis.py:803-813 | a new entry goes to the end of the insertion order, and the map stays well formed |
| Analysis.ChessAnalysis.Openings | ChessAnalysis/ChessAnalysis.py:737 | the openings of the map in insertion order |
| Analysis.ChessAnalysis.constructor | ChessAnalysis/ChessAnalysis.py:600-606 | the games are the loaded ones; no openings, no games to analyse and empty statistics |
| Analysis.ChessAnalysis.Clear | ChessAnalysis/ChessAnalysis.py:615-621 | no openings, no games to analyse, empty statistics |
| Analysis.ChessAnalysis.ValidateClass | ChessAnalysis/ChessAnalysis.py:641-649 | a query left with no opening raises ValueError |
| Analysis.OrderAfter | ChessAnalysis/ChessAnalysis.py:811-812 | filing a key keeps the order listing the map's keys once: a new key goes to the end |
| Analysis.FirstMains | ChessAnalysis/ChessAnalysis.py:729-737 | the order after filing games starts with the order before |
| Analysis.FirstMainsKeys | ChessAnalysis/ChessAnalysis.py:729-737 | the order after filing games lists the old openings and the games' main openings, each once when the old order lists each once |
| Analysis.FirstMainsStep | ChessAnalysis/ChessAnalysis.py:729-735 | one more game adds its main opening at the end, unless it is listed already |
| Analysis.FirstMainsFile | ChessAnalysis/ChessAnalysis.py:729-735 | filing one more game into the map keeps its order the first-appearance order |
| Analysis.FedFromEmpty | ChessAnalysis/ChessAnalysis.py:641-649 | from an empty map, the map is empty after the rebuild exactly when no game was analysed |
| Analysis.ChessAnalysis.UpdateMainOpening | ChessAnalysis/ChessAnalysis.py:803-813 | the opening's entry, made and appended to the order on first use, takes the game |
| Analysis.ChessAnalysis.UpdateVariation | ChessAnalysis/ChessAnalysis.py:907-908 | the opening's entry takes the game as a variation |
| Analysis.ChessAnalysis.UpdateOpening | ChessAnalysis/ChessAnalysis.py:739-742 | the map ends as the entry update says; a failure stops it |
| Analysis.ChessAnalysis.ProcessGame | ChessAnalysis/ChessAnalysis.py:729-735 | the game is analysed, fed to the overall statistics and filed under its main opening |
| Analysis.ChessAnalysis.TakeGame | ChessAnalysis/ChessAnalysis.py:729-735 | one loop turn keeps the map and statistics those of the games taken so far plus this one, and a new main opening goes to the end of the order |
| Analysis.ChessAnalysis.TakeAll | ChessAnalysis/ChessAnalysis.py:729-735 | the loop takes every game in turn until one fails; on success the map and statistics are those of all of them, and the order is the old one followed by the new main openings as they first appear |
| Analysis.ChessAnalysis.InitOpening | ChessAnalysis/ChessAnalysis.py:718-737 | every game to analyse is taken once; the answer is the map's openings in insertion order, fed by those games, and that order is the old one followed by the games' new main openings in order of first appearance |
| Analysis.ChessAnalysis.FilterOpenings | ChessAnalysis/ChessAnalysis.py:768-781 | `None` selects every game and changes none; a list of names selects the games whose full name or main opening it lists, and asking each game for them leaves every game analysed from its state before, with its opening unchanged |
| Analysis.ChessAnalysis.FilterListed | ChessAnalysis/ChessAnalysis.py:779-781 | the loop over the games collects the listed ones and analyses each game once, from the state it had before the loop |
| Analysis.ChessAnalysis.Listed | ChessAnalysis/ChessAnalysis.py:780 | one game is listed exactly when its full name or main opening is; the getters analyse that game and no other |
| Analysis.CandidatesStep | ChessAnalysis/ChessAnalysis.py:779-781 | one more game looked at joins the candidates exactly when it is listed |
| Analysis.AnalysesGamesIff | ChessAnalysis/ChessAnalysis.py:827-830 | the validation loop analyses the games exactly when it reaches, with no error before it, an openings argument that names openings |
| Analysis.AnalysesGamesAfterError | ChessAnalysis/ChessAnalysis.py:826-865 | no argument after a failing one is reached, so none of them analyses a game |
| Analysis.NoFilterAnalysesNothing | ChessAnalysis/ChessAnalysis.py:827-868 | a loop that gathers no candidate set met no openings argument and analysed no game |
| Analysis.ChessAnalysis.GatherArgs | ChessAnalysis/ChessAnalysis.py:826-865 | the loop over the arguments computes the gathered candidates; the games are analysed when an openings argument naming openings is reached, and otherwise left as they were |
| Analysis.ChessAnalysis.ValidateThenUpdateArgs | ChessAnalysis/ChessAnalysis.py:815-870 | a failing argument is raised, leaving the analysis state and the statistics as they were, apart from the games an earlier openings argument analysed; no filtering argument raises TypeError and changes nothing; otherwise the games to analyse are the intersection and the openings are rebuilt from them, listed in the order their games first appear |
| Analysis.ChessAnalysis.PrepareQuery | ChessAnalysis/ChessAnalysis.py:216-224 | a validation error is raised as it is, and no filtering argument is a TypeError; otherwise the games to analyse are the intersection of the candidate sets, and a rebuild that succeeds gives the openings the taken games make from an empty map, in order of first appearance, unless no game is left, which is a ValueError |
| Analysis.ChessAnalysis.GetMostCommon | ChessAnalysis/ChessAnalysis.py:927-943 | the openings tied at the highest game count, from the given list or the whole map, sanitised |

## Left out

- The opening book file (`_openingBookInit`, `SingleGame.py:22-44`) is not read. The book is a given map from gameplay text to opening name.
- The engine (Stockfish) is not modelled. Its answers are a given sequence of evaluations, one per position. The source never sets the engine's position after the moves, so which position each answer belongs to is not modelled either.
- The board library (python-chess) is not modelled. Every move is taken to be legal.
- The regular-expression helpers are not modelled:
  - `_preProcessPGN`, `_removeMoveNumbering` and `_removeClockPattern` are left out, and the game is a given list of tokens;
  - `_isThereClk` is left out, and whether a game carries clocks is a given flag;
  - the regular expression inside `_parseTime` is left out, and the clock matcher is a given function.
- Rounding is not modelled. The getters of `MoveStatistics`, `OpeningData` and `SingleGame`, and `_extractTimeManagement`, round their values; the model keeps exact reals.
- `getGameError` and `getOpeningAvgError` are left out. They are means over the error lists and are not used by the query core.
- `parseDate` and `datetime` are not modelled. Dates arrive already parsed, as (year, month, day) triples compared in that order.
- `__copy__`, `__deepcopy__` and `__iter__` are left out. Copying is not part of the query core.
- The presentation helpers are left out: `_slicedTopSingleGames`, `_updateTopGamesList`, `_slicedTopRecords`, `_sortTop`, `_initResult`, `validateListType`, `_sliceAndPlot`, `_extractData` and `PlotFactory.py`.
- File and directory loading is left out: `_processPgnFile`, `_process_directory`, `_process_file`, `_printAnalyzeProcess` and `exportCSV`. The constructor is given the set of loaded games.
- `adjustAndValidateParams` and `_initBoundParam` read Python call signatures. The model takes the bound arguments as an explicit sequence of `Arg` values instead.
- `_validateOpeningNames`, `_LookForSimilarOpenings` and `_extractOpeningInstance` are left out. They only produce error messages and name lookups for the public getters.
- `_getAllOpponents` is left out. `None` as the opponent stands for every game directly, which is what the set of all opponents selects.
- The public `get*` query methods, `_updateResultGames`, `_updateDateGames` and `_calculateRecord` are left out. They compose the modelled helpers and format the results.
- The order in which a Python set yields its games is left open: `IterationOrder` promises only that each game comes once.
- In `ChessAnalysis`, the opening map is modelled on values (`OpeningEntry`). It does not capture aliasing between the map and `OpeningData` objects, or their in-place update.
- Analysis.ChessAnalysis.InitOpening: states the map's main nodes, its insertion order and the overall statistics, but not the contents of each variation node.
- Text.IsSpace, Text.IsDigits, Text.Strip: white space and digits are the ASCII ones; Python's `str.strip` and `str.isdigit` also accept other Unicode white space and digits, which the model does not.
- Analysis.Contribute, Analysis.ChessAnalysis.GatherArgs: the `_validateThenUpdate*` helpers, which fill sets in place, are modelled as one pure function per argument and a loop that collects the results.
- Game.CalculateEval: the corrected scoring is stated beside the written one (`ScoringsAgree` says where they differ); the analysis of a game uses the scoring as written.
- Analysis.ChessAnalysis.PrepareQuery: when the rebuild itself fails (an update of the statistics or of an entry refuses a game), the contract gives that failure as the answer but does not say which game caused it.
- Queries.InitEloDict: requires a positive `setGap`. `_validateSetGap` refuses 0 and gaps below `MIN_VAL_FOR_SET_GAP`, but the constants module is not part of this model, so nothing here shows that the minimum rules out negative gaps; with a negative gap the band loop (`ChessAnalysis.py:352-357`) would never end. It also takes the gap as an integer, although `_validateSetGap` lets a float gap through.
- Game.SingleGame.AnalyzeGame: as written, analysis appends the clock times a second time, after the constructor appended them once. The model keeps this: the time list of an analysed game holds them twice.
- MoveStats.MoveStatistics.Update: as written, a removal multiplies the move index by -1 (the second move's index becomes -1, which raises ValueError) and adds the error instead of subtracting it. The model keeps this; see `RemovalFailsAtSecondMove` and `RemovalFirstMove`.
- Openings.OpeningData.AddVariation: as written, the counter of the main node grows for every variation game, so it counts the history plus the games with a variation. The model keeps this.
- Analysis.ChessAnalysis.UpdateOpening: as written, a game's variation is filed under its full name (`getName()`) but `removeGame` looks it up by the bare variation. The model keeps both keys as the source has them.
- Integer widths are not a concern: Python integers are unbounded, and so are the model's.

## Findings

| source | as written | input that shows it | evidently intended | confidence | as-written member | corrected member |
|---|---|---|---|---|---|---|
| ChessAnalysis/SingleGame.py:392-395 | a mate for Black adds the punishment times the (negative) distance, so a slower Black mate scores lower (more extreme) than a faster one; the analysis of a game keeps this scoring, as the source does | `Mate(-2)` against `Mate(-1)`, with a positive punishment: the mate in 2 scores below the mate in 1 | a longer mate is less extreme for either side: the punishment moves the score towards zero | not executed | Game.BlackMateScoreReversed | Game.MateScoreOrder |
| ChessAnalysis/ChessAnalysis.py:444-451 | the drop counter starts at 0 although the first item is already taken, so `takeTop` drops are allowed after it | items `[("a",3.0),("b",2.0),("c",1.0)]` with `takeTop` 1 keep two items | `takeTop` items kept from a strictly decreasing list | not executed | Queries.SlicedTopItemsKeepsOneTooMany | Queries.SlicedDecreasingCorrected |
| ChessAnalysis/ChessAnalysis.py:134-139 | the sums and counters have one entry per index below the move bound, but every opening's whole list is added into them | values `[[1.0,2.0],[3.0]]`, counts `[[2,1],[1]]`, bound 2: the move bound is 1 and the first list indexes past it, raising IndexError | one average per move index below the bound, over the openings that reach it | not executed | Queries.AvgPerMoveOverrun | Queries.AvgEntries |
