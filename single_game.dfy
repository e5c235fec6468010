/**
 * One game of the user: its parsed header fields, the opening it reached,
 * the time spent on each of the user's moves and the error of each of them.
 *
 * The chess engine and the board library are foreign: the engine's answers
 * are the `evaluations` of a game (one per engine call), and every move is
 * taken to be legal. The regular expressions of the library are given
 * matchers: `timeMatch` splits a clock token into its fields.
 */
module Game {
  import opened Wrappers
  import opened Text
  import opened Enums

  /** The fields of a clock token (hours, minutes, seconds, optional fraction). */
  datatype ClockFields = ClockFields(hours: nat, minutes: nat, seconds: nat, fraction: real)

  /** An engine answer: a centipawn score, or a forced mate in `value` moves (negative when Black mates). */
  datatype Evaluation = Centipawns(value: int) | Mate(value: int)

  /** A calendar date as (year, month, day). */
  datatype Date = Date(year: int, month: int, day: int)

  /** Dates compare as the tuples (year, month, day). */
  predicate DateLe(a: Date, b: Date) {
    a.year < b.year || (a.year == b.year && (a.month < b.month || (a.month == b.month && a.day <= b.day)))
  }

  /**
   * The library constants a game depends on. The three separators are
   * one-character strings in the library; they are modelled as characters,
   * so `split` and `in` on them are the one-character cases.
   */
  datatype GameConstants = GameConstants(
    timeControlSep: char,          // between the base time and the bonus: "600+5"
    noTimeBonus: nat,              // the bonus of a time control without one
    resultSep: char,               // between the two scores of a result: "1-0"
    drawToken: string,             // White's score in a drawn game
    lossToken: string,             // White's score in a game White lost
    unknownOpening: string,        // the opening of a game that never meets the book
    openingSep: char,              // between an opening and its variation
    normHours: real, normMinutes: real, normSeconds: real,
    normError: real,               // evaluation units per error unit
    whiteFirstMoveInd: nat,        // first clock token of White's moves
    blackFirstMoveInd: nat,        // first clock token of Black's moves
    nextMoveJump: nat,             // tokens between two clocks of the same player
    whiteMateEval: int, blackMateEval: int, longMatePunishment: int,
    minMovesWithClock: nat, minMovesWithoutClock: nat,
    timeMatch: string -> Option<ClockFields>)
  {
    /** The separator of a time control cannot be a digit, clocks advance, and the divisors are not zero. */
    predicate Valid() {
      !IsDigit(timeControlSep) && nextMoveJump > 0 && normSeconds != 0.0 && normError != 0.0
    }
  }

  /** `_changeTurn`: the other colour. */
  function ChangeTurn(turn: ChessColor): (r: ChessColor)
    ensures r != turn
  {
    if turn == White then Black else White
  }

  /** The side that plays ply `ply`; White plays ply 0. */
  function ColorAt(ply: nat): ChessColor {
    if ply % 2 == 0 then White else Black
  }

  /** Turning after a ply hands the move to the side playing the next ply, and two turns change nothing. */
  lemma ChangeTurnAlternates(ply: nat, turn: ChessColor)
    ensures ChangeTurn(ColorAt(ply)) == ColorAt(ply + 1)
    ensures ChangeTurn(ChangeTurn(turn)) == turn
  {
  }

  /**
   * `_addMoveOrder`: a White ply (even `moveNum`) gets its move number and
   * ". " in front, as the opening book writes it; a Black ply is unchanged.
   */
  function AddMoveOrder(moveNum: nat, move: string): (r: string)
    ensures moveNum % 2 == 1 ==> r == move
    ensures |r| >= |move| && r[|r| - |move|..] == move
    ensures moveNum % 2 == 0 ==>
      |r| >= |move| + 3 && r[|r| - |move| - 2..|r| - |move|] == ". " &&
      IsDigits(r[..|r| - |move| - 2]) && DigitsValue(r[..|r| - |move| - 2]) == moveNum / 2 + 1 &&
      r[0] != '0'
  {
    if moveNum % 2 == 0 then
      var p := NatToString(moveNum / 2 + 1);
      NatToStringRoundTrip(moveNum / 2 + 1);
      var r := p + ". " + move;
      assert r[..|p|] == p && r[|p|..|p| + 2] == ". " && r[|p| + 2..] == move;
      r
    else move
  }

  /** `_parseTime` past its regular expression: the clock reading in seconds, AttributeError when the token does not match. */
  function ParseTime(token: string, c: GameConstants): (r: Result<real>)
    ensures r.Err? <==> c.timeMatch(token).None?
    ensures r.Err? ==> r.error == AttributeError
  {
    match c.timeMatch(token)
    case None => Err(AttributeError)
    case Some(f) =>
      Ok(f.hours as real * c.normHours + f.minutes as real * c.normMinutes +
         f.seconds as real * c.normSeconds + f.fraction)
  }

  /**
   * `extractTimeControl`: "main+bonus" gives (main, bonus) and "main" gives
   * (main, NO_TIME_BONUS); a part that is not all digits fails the assertion.
   */
  function ExtractTimeControl(timeControl: string, c: GameConstants): (r: Result<(nat, nat)>)
    ensures r.Err? ==> r.error == AssertionError
    ensures c.timeControlSep !in timeControl ==>
      (r.Ok? <==> IsDigits(timeControl)) && (r.Ok? ==> r.value == (DigitsValue(timeControl), c.noTimeBonus))
    ensures c.timeControlSep in timeControl ==>
      var parts := SplitOnce(timeControl, c.timeControlSep);
      (r.Ok? <==> IsDigits(parts[0]) && IsDigits(parts[1])) &&
      (r.Ok? ==> r.value == (DigitsValue(parts[0]), DigitsValue(parts[1])))
  {
    var parts := SplitOnce(timeControl, c.timeControlSep);
    if !IsDigits(parts[0]) then Err(AssertionError)
    else if |parts| > 1 then
      if !IsDigits(parts[1]) then Err(AssertionError) else Ok((DigitsValue(parts[0]), DigitsValue(parts[1])))
    else Ok((DigitsValue(parts[0]), c.noTimeBonus))
  }

  /** `getTotalTimeControl`: the time control written back as "main+bonus". */
  function TotalTimeControl(timeControl: nat, bonusTime: nat, c: GameConstants): string {
    NatToString(timeControl) + [c.timeControlSep] + NatToString(bonusTime)
  }

  /** Parsing the written-back time control gives back the base time and the bonus. */
  lemma ExtractTimeControlRoundTrip(timeControl: nat, bonusTime: nat, c: GameConstants)
    requires c.Valid()
    ensures ExtractTimeControl(TotalTimeControl(timeControl, bonusTime, c), c) == Ok((timeControl, bonusTime))
  {
    var a, b := NatToString(timeControl), NatToString(bonusTime);
    DigitsExclude(a, c.timeControlSep);
    SplitOnceAt(a, c.timeControlSep, b);
    NatToStringRoundTrip(timeControl);
    NatToStringRoundTrip(bonusTime);
  }

  /**
   * `_extractGameResult`: the result seen by the user. The text before the
   * first separator is White's score: a draw score is a draw, a lost score is
   * a loss for a White user and a win for a Black one, anything else the reverse.
   */
  function ExtractGameResult(result: string, userColor: ChessColor, c: GameConstants): (r: ChessResult)
    ensures SplitOnce(result, c.resultSep)[0] == c.drawToken ==> r == Draw
    ensures SplitOnce(result, c.resultSep)[0] != c.drawToken ==> r != Draw
    ensures SplitOnce(result, c.resultSep)[0] != c.drawToken && SplitOnce(result, c.resultSep)[0] == c.lossToken ==>
      r == (if userColor == White then Loss else Win)
    ensures SplitOnce(result, c.resultSep)[0] != c.drawToken && SplitOnce(result, c.resultSep)[0] != c.lossToken ==>
      r == (if userColor == White then Win else Loss)
  {
    var white := SplitOnce(result, c.resultSep)[0];
    if white == c.drawToken then Draw
    else if white == c.lossToken then (if userColor == White then Loss else Win)
    else if userColor == White then Win
    else Loss
  }

  /** The same game read by the two players: a draw for both, or a win for exactly one. */
  lemma ExtractGameResultPerspective(result: string, c: GameConstants)
    ensures ExtractGameResult(result, White, c) == Draw <==> ExtractGameResult(result, Black, c) == Draw
    ensures ExtractGameResult(result, White, c) == Win <==> ExtractGameResult(result, Black, c) == Loss
    ensures ExtractGameResult(result, White, c) == Loss <==> ExtractGameResult(result, Black, c) == Win
  {
  }

  /** `_calculateEval` as written: a mate for Black is scored BLACK_FORCED_MATE_EVAL + (v + 1)·LONG_MATE_PUNISHMENT. */
  function CalculateEvalAsWritten(e: Evaluation, c: GameConstants): (r: int)
    ensures e.Centipawns? ==> r == e.value
    ensures e == Mate(1) ==> r == c.whiteMateEval
    ensures e == Mate(-1) ==> r == c.blackMateEval
  {
    match e
    case Centipawns(v) => v
    case Mate(v) =>
      if v > 0 then c.whiteMateEval - (v - 1) * c.longMatePunishment
      else c.blackMateEval + (v + 1) * c.longMatePunishment
  }

  /** As written, a slower mate for Black scores further from zero than a faster one. */
  lemma BlackMateScoreReversed(c: GameConstants)
    requires c.longMatePunishment > 0
    ensures CalculateEvalAsWritten(Mate(-2), c) < CalculateEvalAsWritten(Mate(-1), c)
    ensures CalculateEvalAsWritten(Mate(2), c) < CalculateEvalAsWritten(Mate(1), c)
  {
  }

  /**
   * The written and the corrected scoring differ exactly on the mates scored
   * from the Black constant other than mate in -1 (a slower Black mate, or
   * mate 0), when the punishment is not zero.
   */
  lemma ScoringsAgree(e: Evaluation, c: GameConstants)
    ensures !(e.Mate? && e.value <= 0 && e.value != -1) ==> CalculateEvalAsWritten(e, c) == CalculateEval(e, c)
    ensures e.Mate? && e.value <= 0 && e.value != -1 && c.longMatePunishment != 0 ==>
      CalculateEvalAsWritten(e, c) != CalculateEval(e, c)
  {
    if e.Mate? && e.value <= 0 {
      var d := (e.value + 1) * c.longMatePunishment;
      assert CalculateEvalAsWritten(e, c) == c.blackMateEval + d;
      assert CalculateEval(e, c) == c.blackMateEval - d;
      if e.value != -1 && c.longMatePunishment != 0 {
        NonZeroProduct(e.value + 1, c.longMatePunishment);
      }
    }
  }

  lemma NonZeroProduct(x: int, y: int)
    requires x != 0 && y != 0
    ensures x * y != 0
  {
    if x > 0 && y > 0 {
      assert x * y >= y;
    } else if x > 0 {
      assert x * y <= y;
    } else if y > 0 {
      assert x * y <= -y;
    } else {
      assert x * y >= -y;
    }
  }

  /**
   * `_calculateEval` with the punishment applied symmetrically: a mate in |v|
   * moves scores the mate value moved (|v| - 1) punishments towards zero.
   */
  function CalculateEval(e: Evaluation, c: GameConstants): (r: int)
    ensures e.Centipawns? ==> r == e.value
    ensures e == Mate(1) ==> r == c.whiteMateEval
    ensures e == Mate(-1) ==> r == c.blackMateEval
  {
    match e
    case Centipawns(v) => v
    case Mate(v) =>
      if v > 0 then c.whiteMateEval - (v - 1) * c.longMatePunishment
      else c.blackMateEval - (v + 1) * c.longMatePunishment
  }

  /** A faster mate is never scored less decisively than a slower one, for either side. */
  lemma MateScoreOrder(v: int, w: int, c: GameConstants)
    requires c.longMatePunishment >= 0
    ensures 0 < v <= w ==> CalculateEval(Mate(w), c) <= CalculateEval(Mate(v), c)
    ensures w <= v < 0 ==> CalculateEval(Mate(v), c) <= CalculateEval(Mate(w), c)
  {
    if 0 < v <= w {
      assert (w - 1) * c.longMatePunishment >= (v - 1) * c.longMatePunishment;
    }
    if w <= v < 0 {
      assert (w + 1) * c.longMatePunishment <= (v + 1) * c.longMatePunishment;
    }
  }

  /** With opposite mate values, a mate for Black scores the negation of the same mate for White. */
  lemma MateScoreSymmetric(v: int, c: GameConstants)
    requires v > 0 && c.blackMateEval == -c.whiteMateEval
    ensures CalculateEval(Mate(-v), c) == -CalculateEval(Mate(v), c)
  {
  }

  /** `_calculateMoveError`'s entry: the size of the evaluation swing, in error units. */
  function MoveError(before: int, after: int, c: GameConstants): (r: real)
    requires c.normError != 0.0
    ensures c.normError > 0.0 ==> r >= 0.0
    ensures r * c.normError == (if before >= after then before - after else after - before) as real
  {
    (if before >= after then before - after else after - before) as real / c.normError
  }

  /** `getName`: the opening, then the separator, a blank and the variation when there is one. */
  function NameOf(main: string, variation: Option<string>, sep: char): string {
    if variation.Some? then main + [sep] + " " + variation.value else main
  }

  /** The opening and variation an opening-book entry names: the trimmed text around the first separator. */
  function ParseOpeningInfo(info: string, sep: char): (r: (string, Option<string>))
    ensures r.1.Some? <==> sep in info
    ensures sep !in info ==> r.0 == Strip(info)
    ensures sep in info ==>
      r == (Strip(SplitOnce(info, sep)[0]), Some(Strip(SplitOnce(info, sep)[1]))) &&
      SplitOnce(info, sep)[0] + [sep] + SplitOnce(info, sep)[1] == info && sep !in SplitOnce(info, sep)[0]
  {
    var parts := SplitOnce(info, sep);
    (Strip(parts[0]), if |parts| > 1 then Some(Strip(parts[1])) else None)
  }

  /** A game's name reads back, as a book entry, into its opening and variation. */
  lemma GetNameParses(main: string, variation: Option<string>, sep: char)
    requires sep !in main && IsStripped(main)
    requires variation.Some? ==> IsStripped(variation.value)
    ensures ParseOpeningInfo(NameOf(main, variation, sep), sep) == (main, variation)
  {
    if variation.Some? {
      VariationNameParses(main, variation.value, sep);
    } else {
      StripStripped(main);
    }
  }

  lemma VariationNameParses(main: string, v: string, sep: char)
    requires sep !in main && IsStripped(main) && IsStripped(v)
    ensures ParseOpeningInfo(main + [sep] + " " + v, sep) == (main, Some(v))
  {
    var name := main + [sep] + " " + v;
    assert name == main + [sep] + (" " + v);
    SplitOnceAt(main, sep, " " + v);
    assert SplitOnce(name, sep) == [main, " " + v];
    StripStripped(main);
    StripStripped(v);
  }

  /** The tokens at even positions: the moves of a token list that alternates moves and clocks. */
  function EvenTokens(tokens: seq<string>): (r: seq<string>)
    ensures |r| == (|tokens| + 1) / 2
    ensures forall j :: 0 <= j < |r| ==> r[j] == tokens[2 * j]
  {
    if |tokens| <= 1 then tokens else [tokens[0]] + EvenTokens(tokens[2..])
  }

  /** The moves of the game: every token, or every other one when the tokens carry clocks. */
  function SanitizedMoves(tokens: seq<string>, withClock: bool): seq<string> {
    if withClock then EvenTokens(tokens) else tokens
  }

  /** `_initTimeControl`: the clock before the user's first move and the token of that move's clock. */
  function InitTimeControl(tokens: seq<string>, userColor: ChessColor, timeControl: nat, c: GameConstants): (r: Result<(real, nat)>)
    ensures userColor == White ==> r == Ok((timeControl as real * c.normSeconds, c.whiteFirstMoveInd))
    ensures userColor == Black && |tokens| < 2 ==> r == Err(IndexError)
    ensures userColor == Black && |tokens| >= 2 ==>
      (r.Ok? <==> ParseTime(tokens[1], c).Ok?) &&
      (r.Ok? ==> r.value == (ParseTime(tokens[1], c).value, c.blackFirstMoveInd))
  {
    if userColor == White then Ok((timeControl as real * c.normSeconds, c.whiteFirstMoveInd))
    else if |tokens| < 2 then Err(IndexError)
    else
      match ParseTime(tokens[1], c)
      case Err(e) => Err(e)
      case Ok(t) => Ok((t, c.blackFirstMoveInd))
  }

  /** The position of the `j`-th clock visited from `start`. */
  function Visit(start: nat, j: nat, jump: nat): nat {
    start + j * jump
  }

  /** The clock reading at token `k`; 0 where there is no token or it does not parse. */
  function ClockAt(tokens: seq<string>, k: nat, c: GameConstants): real {
    if k < |tokens| && ParseTime(tokens[k], c).Ok? then ParseTime(tokens[k], c).value else 0.0
  }

  /**
   * The loop of `_extractTimeManagement` from token `i` on: the entries it
   * appends, and whether it completes (a token the pattern rejects stops it).
   */
  function ClockTimes(tokens: seq<string>, i: nat, prev: real, bonus: real, c: GameConstants): (r: (seq<real>, Outcome))
    requires c.nextMoveJump > 0 && c.normSeconds != 0.0
    decreases |tokens| - i
  {
    if i >= |tokens| then ([], Pass)
    else
      match ParseTime(tokens[i], c)
      case Err(e) => ([], Fail(e))
      case Ok(cur) =>
        var rest := ClockTimes(tokens, i + c.nextMoveJump, cur + bonus, bonus, c);
        ([(prev - cur) / c.normSeconds] + rest.0, rest.1)
  }

  /** The entries `ClockTimes` appends. */
  function ClockEntries(tokens: seq<string>, i: nat, prev: real, bonus: real, c: GameConstants): seq<real>
    requires c.nextMoveJump > 0 && c.normSeconds != 0.0
  {
    ClockTimes(tokens, i, prev, bonus, c).0
  }

  /**
   * A completed clock loop appends one entry per visited clock token, each
   * visited token parses and the next visit is past the end; the first entry
   * is the time from `prev` to the first reading, and each later one the time
   * from the previous reading plus the bonus to this reading.
   */
  lemma {:induction false} ClockTimesShape(tokens: seq<string>, i: nat, prev: real, bonus: real, c: GameConstants)
    requires c.nextMoveJump > 0 && c.normSeconds != 0.0
    requires ClockTimes(tokens, i, prev, bonus, c).1.Pass?
    decreases |tokens| - i
    ensures forall j :: 0 <= j < |ClockEntries(tokens, i, prev, bonus, c)| ==>
      Visit(i, j, c.nextMoveJump) < |tokens| && ParseTime(tokens[Visit(i, j, c.nextMoveJump)], c).Ok?
    ensures Visit(i, |ClockEntries(tokens, i, prev, bonus, c)|, c.nextMoveJump) >= |tokens|
    ensures |ClockEntries(tokens, i, prev, bonus, c)| > 0 ==>
      ClockEntries(tokens, i, prev, bonus, c)[0] == (prev - ClockAt(tokens, i, c)) / c.normSeconds
    ensures forall j :: 0 < j < |ClockEntries(tokens, i, prev, bonus, c)| ==>
      ClockEntries(tokens, i, prev, bonus, c)[j] ==
        (ClockAt(tokens, Visit(i, j - 1, c.nextMoveJump), c) + bonus - ClockAt(tokens, Visit(i, j, c.nextMoveJump), c)) / c.normSeconds
  {
    var jump := c.nextMoveJump;
    if i < |tokens| {
      var cur := ClockAt(tokens, i, c);
      var i' := i + jump;
      ClockTimesShape(tokens, i', cur + bonus, bonus, c);
      var rest := ClockTimes(tokens, i', cur + bonus, bonus, c).0;
      var r := ClockTimes(tokens, i, prev, bonus, c).0;
      assert r == [(prev - cur) / c.normSeconds] + rest;
      forall j | 0 < j <= |rest|
        ensures Visit(i', j - 1, jump) == Visit(i, j, jump)
      {
        assert (j - 1) * jump + jump == j * jump;
      }
      assert Visit(i', |rest|, jump) == Visit(i, |rest| + 1, jump) by {
        assert |rest| * jump + jump == (|rest| + 1) * jump;
      }
      if |rest| > 0 {
        assert Visit(i, 1, jump) == i';
      }
    }
  }

  /** `_extractTimeManagement`'s appended entries and completion, from the user's first clock. */
  function TimeManagement(tokens: seq<string>, userColor: ChessColor, timeControl: nat, bonusTime: nat, c: GameConstants): (seq<real>, Outcome)
    requires c.nextMoveJump > 0 && c.normSeconds != 0.0
  {
    match InitTimeControl(tokens, userColor, timeControl, c)
    case Err(e) => ([], Fail(e))
    case Ok(init) =>
      var bonus := bonusTime as real * c.normSeconds;
      ClockTimes(tokens, init.1, init.0 + bonus, bonus, c)
  }

  /** The numbered plies of `moves`, as the opening book spells them. */
  function Numbered(moves: seq<string>): (r: seq<string>)
    ensures |r| == |moves|
    ensures forall j :: 0 <= j < |moves| ==> r[j] == AddMoveOrder(j, moves[j])
  {
    if |moves| == 0 then []
    else Numbered(moves[..|moves| - 1]) + [AddMoveOrder(|moves| - 1, moves[|moves| - 1])]
  }

  /** The opening-book key of the game up to and including ply `j`. */
  function OpeningKey(moves: seq<string>, j: nat): string
    requires j < |moves|
  {
    Join(Numbered(moves[..j + 1]))
  }

  /** The opening fields of a game: main opening, variation, and the user's plies spent in the book. */
  datatype OpeningState = OpeningState(main: string, variation: Option<string>, leaving: nat)

  /** The opening fields of a game that has not yet met the book. */
  function InitialOpening(c: GameConstants): OpeningState {
    OpeningState(c.unknownOpening, None, 0)
  }

  /** What the book says about a game text: the opening and variation of an entry, or nothing. */
  function Lookup(book: map<string, string>, gameplay: string, sep: char): Option<(string, Option<string>)> {
    if gameplay in book then Some(ParseOpeningInfo(book[gameplay], sep)) else None
  }

  /**
   * `_updateOpeningAndVariation` on values, given the lookup: a miss changes
   * nothing; a hit sets the main opening, and the variation only when the
   * entry names one.
   */
  function UpdateOpening(st: OpeningState, hit: Option<(string, Option<string>)>): OpeningState {
    match hit
    case None => st
    case Some(info) => st.(main := info.0, variation := if info.1.Some? then info.1 else st.variation)
  }

  /**
   * A book hit sets the main opening to the entry's trimmed text before the
   * first separator; an entry without the separator keeps the variation, one
   * with it sets the variation to the trimmed text after that separator.
   */
  lemma UpdateOpeningVariation(st: OpeningState, book: map<string, string>, gameplay: string, sep: char)
    requires gameplay in book
    ensures UpdateOpening(st, Lookup(book, gameplay, sep)).main == ParseOpeningInfo(book[gameplay], sep).0
    ensures sep !in book[gameplay] ==> UpdateOpening(st, Lookup(book, gameplay, sep)).variation == st.variation
    ensures sep in book[gameplay] ==>
      UpdateOpening(st, Lookup(book, gameplay, sep)).variation == Some(Strip(SplitOnce(book[gameplay], sep)[1]))
    ensures UpdateOpening(st, Lookup(book, gameplay, sep)).leaving == st.leaving
  {
  }

  /** The lookups `_initOpenings` makes, one per ply: the numbered game up to and including that ply. */
  function BookHits(moves: seq<string>, book: map<string, string>, sep: char): (r: seq<Option<(string, Option<string>)>>)
    ensures |r| == |moves|
    ensures forall j :: 0 <= j < |moves| ==> r[j] == Lookup(book, OpeningKey(moves, j), sep)
  {
    seq(|moves|, j requires 0 <= j < |moves| => Lookup(book, OpeningKey(moves, j), sep))
  }

  /** Numbering one more ply extends the game text, and the book hit at that ply is the lookup of the new text. */
  lemma BookHitAt(moves: seq<string>, book: map<string, string>, sep: char, i: nat)
    requires i < |moves|
    ensures Numbered(moves[..i]) + [AddMoveOrder(i, moves[i])] == Numbered(moves[..i + 1])
    ensures BookHits(moves, book, sep)[i] == Lookup(book, Join(Numbered(moves[..i + 1])), sep)
  {
    assert moves[..i + 1][..i] == moves[..i];
  }

  /**
   * The loop of `_initOpenings` over the first `n` plies, given the lookup
   * made at each ply: a hit on one of the user's plies counts one more move
   * in the book.
   */
  function ScanOpenings(st0: OpeningState, hits: seq<Option<(string, Option<string>)>>, userColor: ChessColor, n: nat): OpeningState
    requires n <= |hits|
  {
    if n == 0 then st0
    else ScanStep(ScanOpenings(st0, hits, userColor, n - 1), hits[n - 1], ColorAt(n - 1) == userColor)
  }

  /** One ply of the scan: the update, and one more move in the book for a hit on the user's ply. */
  function ScanStep(st: OpeningState, hit: Option<(string, Option<string>)>, usersPly: bool): OpeningState {
    var next := UpdateOpening(st, hit);
    if hit.Some? && usersPly then next.(leaving := next.leaving + 1) else next
  }

  /** A game that never meets the book keeps its initial opening fields. */
  lemma {:induction false} ScanNoHit(st0: OpeningState, hits: seq<Option<(string, Option<string>)>>, userColor: ChessColor, n: nat)
    requires n <= |hits|
    requires forall j :: 0 <= j < n ==> hits[j].None?
    ensures ScanOpenings(st0, hits, userColor, n) == st0
  {
    if n > 0 {
      ScanNoHit(st0, hits, userColor, n - 1);
    }
  }

  /** Later misses keep the fields of the last hit: the last book hit names the main opening. */
  lemma {:induction false} ScanLastHit(st0: OpeningState, hits: seq<Option<(string, Option<string>)>>, userColor: ChessColor, n: nat, j: nat)
    requires j < n <= |hits|
    requires hits[j].Some?
    requires forall k :: j < k < n ==> hits[k].None?
    ensures ScanOpenings(st0, hits, userColor, n).main == hits[j].value.0
  {
    if n > j + 1 {
      ScanLastHit(st0, hits, userColor, n - 1, j);
    }
  }

  /** The variation is the one of the last hit that names a variation: later hits without one keep it. */
  lemma {:induction false} ScanLastVariation(st0: OpeningState, hits: seq<Option<(string, Option<string>)>>, userColor: ChessColor, n: nat, j: nat)
    requires j < n <= |hits|
    requires hits[j].Some? && hits[j].value.1.Some?
    requires forall k :: j < k < n && hits[k].Some? ==> hits[k].value.1.None?
    ensures ScanOpenings(st0, hits, userColor, n).variation == hits[j].value.1
  {
    if n > j + 1 {
      ScanLastVariation(st0, hits, userColor, n - 1, j);
    }
  }

  /** The user's plies among the first `n` that were book hits. */
  function UserBookPlies(hits: seq<Option<(string, Option<string>)>>, userColor: ChessColor, n: nat): set<nat>
    requires n <= |hits|
  {
    set j: nat | j < n && hits[j].Some? && ColorAt(j) == userColor
  }

  /** The move counter ends up counting exactly the user's plies that were book hits. */
  lemma {:induction false} ScanCountsUserHits(st0: OpeningState, hits: seq<Option<(string, Option<string>)>>, userColor: ChessColor, n: nat)
    requires n <= |hits|
    ensures ScanOpenings(st0, hits, userColor, n).leaving == st0.leaving + |UserBookPlies(hits, userColor, n)|
  {
    if n > 0 {
      ScanCountsUserHits(st0, hits, userColor, n - 1);
      var before := UserBookPlies(hits, userColor, n - 1);
      var after := UserBookPlies(hits, userColor, n);
      if hits[n - 1].Some? && ColorAt(n - 1) == userColor {
        assert after == before + {n - 1};
        assert n - 1 !in before;
      } else {
        assert after == before;
      }
    }
  }

  /** The error entries `analyzeGame` appends for the first `n` plies: one per user ply. */
  function MoveErrors(evals: seq<Evaluation>, userColor: ChessColor, c: GameConstants, n: nat): seq<real>
    requires n < |evals| && c.normError != 0.0
  {
    if n == 0 then []
    else
      MoveErrors(evals, userColor, c, n - 1) +
      (if ColorAt(n - 1) == userColor
       then [MoveError(CalculateEvalAsWritten(evals[n - 1], c), CalculateEvalAsWritten(evals[n], c), c)]
       else [])
  }

  /** The ply of the user's `k`-th move. */
  function UserPly(userColor: ChessColor, k: nat): nat {
    2 * k + (if userColor == White then 0 else 1)
  }

  /** The number of the user's plies among the first `n`. */
  function UserPlies(userColor: ChessColor, n: nat): nat {
    if userColor == White then (n + 1) / 2 else n / 2
  }

  /**
   * The `k`-th error entry measures the user's `k`-th move: the swing from the
   * evaluation before it to the evaluation after it.
   */
  lemma {:induction false} MoveErrorsShape(evals: seq<Evaluation>, userColor: ChessColor, c: GameConstants, n: nat)
    requires n < |evals| && c.normError != 0.0
    ensures |MoveErrors(evals, userColor, c, n)| == UserPlies(userColor, n)
    ensures forall k :: 0 <= k < UserPlies(userColor, n) ==>
      UserPly(userColor, k) < n &&
      MoveErrors(evals, userColor, c, n)[k] ==
        MoveError(CalculateEvalAsWritten(evals[UserPly(userColor, k)], c), CalculateEvalAsWritten(evals[UserPly(userColor, k) + 1], c), c)
  {
    if n > 0 {
      MoveErrorsShape(evals, userColor, c, n - 1);
      var prev := MoveErrors(evals, userColor, c, n - 1);
      if ColorAt(n - 1) == userColor {
        assert UserPly(userColor, |prev|) == n - 1;
        assert UserPlies(userColor, n) == |prev| + 1;
      } else {
        assert UserPlies(userColor, n) == |prev|;
      }
    }
  }

  /** The fields of a game its analysis may change. */
  datatype LazyFields = LazyFields(isAnalyzed: bool, errors: seq<real>, times: seq<real>, opening: OpeningState)

  /** A game: the fields fixed when it is read, and the ones its analysis fills in. */
  class SingleGame {
    const tokens: seq<string>              // the preprocessed game text, split at blanks
    const withClock: bool                  // whether the text carries clock tokens
    const book: map<string, string>        // numbered game text -> "Opening: Variation"
    const evaluations: seq<Evaluation>     // the engine's answers, in the order they are asked for
    const whiteElo: int
    const blackElo: int
    const timeControl: nat
    const bonusTime: nat
    const userColor: ChessColor
    const gameResult: ChessResult
    const opponent: string
    const date: Date
    const c: GameConstants

    var isAnalyzed: bool
    var errorPerMove: seq<real>
    var timeSpentPerMove: seq<real>
    var mainOpening: string
    var openingVariation: Option<string>
    var moveLeavingOpening: nat

    /** The constants are sound, the engine answers every evaluation asked for, and the clock tokens parse. */
    predicate Valid() {
      c.Valid() &&
      |evaluations| == |Moves()| + 1 &&
      (withClock ==> TimeManagement(tokens, userColor, timeControl, bonusTime, c).1.Pass?)
    }

    /** The moves of the game. */
    function Moves(): seq<string> {
      SanitizedMoves(tokens, withClock)
    }

    /** The time entries one pass over the clock tokens appends. */
    function ClockSection(): seq<real>
      requires c.Valid()
    {
      if withClock then TimeManagement(tokens, userColor, timeControl, bonusTime, c).0 else []
    }

    /** The error entries one analysis appends. */
    function AnalysisErrors(): seq<real>
      requires Valid()
    {
      MoveErrors(evaluations, userColor, c, |Moves()|)
    }

    function Opening(): OpeningState
      reads this
    {
      OpeningState(mainOpening, openingVariation, moveLeavingOpening)
    }

    /** The analysis has run, once: from a game analysed before nothing changes, otherwise one pass appended. */
    predicate AnalyzedFrom(wasAnalyzed: bool, errors0: seq<real>, times0: seq<real>)
      requires Valid()
      reads this
    {
      isAnalyzed &&
      errorPerMove == (if wasAnalyzed then errors0 else errors0 + AnalysisErrors()) &&
      timeSpentPerMove == (if wasAnalyzed then times0 else times0 + ClockSection())
    }

    /** The fields the analysis of a game fills in, as one value. */
    function Lazy(): LazyFields
      reads this
    {
      LazyFields(isAnalyzed, errorPerMove, timeSpentPerMove, Opening())
    }

    /** The lazy fields after `analyzeGame` on fields `st`: unchanged when analysed before, otherwise one pass appended. */
    function AfterAnalysis(st: LazyFields): (r: LazyFields)
      requires Valid()
      ensures r.isAnalyzed && r.opening == st.opening
      ensures st.isAnalyzed ==> r == st
    {
      if st.isAnalyzed then st
      else st.(isAnalyzed := true, errors := st.errors + AnalysisErrors(), times := st.times + ClockSection())
    }

    constructor (tokens: seq<string>, withClock: bool, book: map<string, string>, evaluations: seq<Evaluation>,
                 whiteElo: int, blackElo: int, timeControl: nat, bonusTime: nat, userColor: ChessColor,
                 gameResult: ChessResult, opponent: string, date: Date, c: GameConstants)
      ensures this.tokens == tokens && this.withClock == withClock && this.book == book
      ensures this.evaluations == evaluations && this.whiteElo == whiteElo && this.blackElo == blackElo
      ensures this.timeControl == timeControl && this.bonusTime == bonusTime && this.userColor == userColor
      ensures this.gameResult == gameResult && this.opponent == opponent && this.date == date && this.c == c
      ensures !isAnalyzed && errorPerMove == [] && timeSpentPerMove == []
      ensures Opening() == InitialOpening(c)
    {
      this.tokens, this.withClock, this.book, this.evaluations := tokens, withClock, book, evaluations;
      this.whiteElo, this.blackElo, this.timeControl, this.bonusTime := whiteElo, blackElo, timeControl, bonusTime;
      this.userColor, this.gameResult, this.opponent, this.date, this.c := userColor, gameResult, opponent, date, c;
      isAnalyzed, errorPerMove, timeSpentPerMove := false, [], [];
      mainOpening, openingVariation, moveLeavingOpening := c.unknownOpening, None, 0;
    }

    /** The game text as `_sanitize_pgn` splits it: stripped, then cut at every blank. */
    static function PgnTokens(pgn: string): seq<string> {
      SplitAll(Strip(pgn), ' ')
    }

    /**
     * What goes wrong, if anything, when a game is read from these fields.
     * The clock loop reads the stripped tokens, while `_validate_pgn` counts
     * the pieces of the text as given.
     */
    static function ReadError(pgn: string, withClock: bool, timeControl: string,
                              userColor: ChessColor, c: GameConstants): Option<Exception>
      requires c.Valid()
    {
      match ExtractTimeControl(timeControl, c)
      case Err(e) => Some(e)
      case Ok(tc) =>
        var tm := TimeManagement(PgnTokens(pgn), userColor, tc.0, tc.1, c);
        if withClock && tm.1.Fail? then Some(tm.1.error)
        else if |SplitAll(pgn, ' ')| < (if withClock then c.minMovesWithClock else c.minMovesWithoutClock) then Some(ValueError)
        else None
    }

    /**
     * The constructor of a game: parse the time control and the result, scan
     * the opening book (which runs the clock loop once), then check the length.
     */
    static method Create(pgn: string, withClock: bool, book: map<string, string>, evaluations: seq<Evaluation>,
                         whiteElo: int, blackElo: int, result: string, timeControl: string, userColor: ChessColor,
                         opponent: string, date: Date, c: GameConstants) returns (r: Result<SingleGame>)
      requires c.Valid()
      requires |evaluations| == |SanitizedMoves(PgnTokens(pgn), withClock)| + 1
      ensures r.Err? <==> ReadError(pgn, withClock, timeControl, userColor, c).Some?
      ensures r.Err? ==> r.error == ReadError(pgn, withClock, timeControl, userColor, c).value
      ensures r.Ok? ==> fresh(r.value) && r.value.Valid()
      ensures r.Ok? ==>
        r.value.tokens == PgnTokens(pgn) && r.value.withClock == withClock && r.value.book == book &&
        r.value.evaluations == evaluations && r.value.whiteElo == whiteElo && r.value.blackElo == blackElo &&
        r.value.userColor == userColor && r.value.opponent == opponent && r.value.date == date
      ensures r.Ok? ==>
        (r.value.timeControl, r.value.bonusTime) == ExtractTimeControl(timeControl, c).value &&
        r.value.gameResult == ExtractGameResult(result, userColor, c)
      ensures r.Ok? ==>
        !r.value.isAnalyzed && r.value.errorPerMove == [] && r.value.timeSpentPerMove == r.value.ClockSection() &&
        r.value.Opening() == ScanOpenings(InitialOpening(c), BookHits(r.value.Moves(), book, c.openingSep), userColor, |r.value.Moves()|)
    {
      var tc := ExtractTimeControl(timeControl, c);
      if tc.Err? {
        return Err(tc.error);
      }
      var g := new SingleGame(PgnTokens(pgn), withClock, book, evaluations, whiteElo, blackElo, tc.value.0, tc.value.1,
                              userColor, ExtractGameResult(result, userColor, c), opponent, date, c);
      var out := g.InitOpenings();
      if out.Fail? {
        return Err(out.error);
      }
      if |SplitAll(pgn, ' ')| < (if withClock then c.minMovesWithClock else c.minMovesWithoutClock) {
        return Err(ValueError);
      }
      r := Ok(g);
    }

    /** `_extractTimeManagement`: appends the user's time per move and returns the moves without their clocks. */
    method ExtractTimeManagement() returns (moves: seq<string>, out: Outcome)
      requires c.Valid()
      modifies this
      ensures timeSpentPerMove == old(timeSpentPerMove) + TimeManagement(tokens, userColor, timeControl, bonusTime, c).0
      ensures out == TimeManagement(tokens, userColor, timeControl, bonusTime, c).1
      ensures out.Pass? ==> moves == EvenTokens(tokens)
      ensures isAnalyzed == old(isAnalyzed) && errorPerMove == old(errorPerMove) && Opening() == old(Opening())
    {
      var init := InitTimeControl(tokens, userColor, timeControl, c);
      if init.Err? {
        return [], Fail(init.error);
      }
      var bonus := bonusTime as real * c.normSeconds;
      var prev := init.value.0 + bonus;
      var i := init.value.1;
      ghost var total := ClockTimes(tokens, i, prev, bonus, c);
      while i < |tokens|
        invariant timeSpentPerMove + ClockTimes(tokens, i, prev, bonus, c).0 == old(timeSpentPerMove) + total.0
        invariant ClockTimes(tokens, i, prev, bonus, c).1 == total.1
        invariant isAnalyzed == old(isAnalyzed) && errorPerMove == old(errorPerMove) && Opening() == old(Opening())
        decreases |tokens| - i
      {
        var cur := ParseTime(tokens[i], c);
        if cur.Err? {
          return [], Fail(cur.error);
        }
        var rest := ClockTimes(tokens, i + c.nextMoveJump, cur.value + bonus, bonus, c);
        assert ClockTimes(tokens, i, prev, bonus, c).0 == [(prev - cur.value) / c.normSeconds] + rest.0;
        timeSpentPerMove := timeSpentPerMove + [(prev - cur.value) / c.normSeconds];
        prev := cur.value + bonus;
        i := i + c.nextMoveJump;
      }
      moves, out := EvenTokens(tokens), Pass;
    }

    /** `_sanitize_pgn`: the moves of the game; with clocks, this also runs the clock loop. */
    method SanitizePgn() returns (moves: seq<string>, out: Outcome)
      requires c.Valid()
      modifies this
      ensures timeSpentPerMove == old(timeSpentPerMove) + ClockSection()
      ensures out == (if withClock then TimeManagement(tokens, userColor, timeControl, bonusTime, c).1 else Pass)
      ensures out.Pass? ==> moves == Moves()
      ensures isAnalyzed == old(isAnalyzed) && errorPerMove == old(errorPerMove) && Opening() == old(Opening())
    {
      if withClock {
        moves, out := ExtractTimeManagement();
      } else {
        moves, out := tokens, Pass;
      }
    }

    /** `_updateOpeningAndVariation`: whether the game text is a book entry; a hit updates the opening fields. */
    method UpdateOpeningAndVariation(gameplay: string) returns (hit: bool)
      modifies this
      ensures hit <==> gameplay in book
      ensures Opening() == UpdateOpening(old(Opening()), Lookup(book, gameplay, c.openingSep))
      ensures isAnalyzed == old(isAnalyzed) && errorPerMove == old(errorPerMove) && timeSpentPerMove == old(timeSpentPerMove)
    {
      if gameplay !in book {
        return false;
      }
      var info := ParseOpeningInfo(book[gameplay], c.openingSep);
      mainOpening := info.0;
      if info.1.Some? {
        openingVariation := info.1;
      }
      hit := true;
    }

    /** `_initOpenings`: sanitizes the text, then scans its plies against the book. */
    method InitOpenings() returns (out: Outcome)
      requires c.Valid()
      modifies this
      ensures out == (if withClock then TimeManagement(tokens, userColor, timeControl, bonusTime, c).1 else Pass)
      ensures timeSpentPerMove == old(timeSpentPerMove) + ClockSection()
      ensures out.Pass? ==> Opening() == ScanOpenings(old(Opening()), BookHits(Moves(), book, c.openingSep), userColor, |Moves()|)
      ensures out.Fail? ==> Opening() == old(Opening())
      ensures isAnalyzed == old(isAnalyzed) && errorPerMove == old(errorPerMove)
    {
      var moves;
      moves, out := SanitizePgn();
      if out.Fail? {
        return;
      }
      ScanBook(moves);
    }

    /** One iteration of the loop of `_initOpenings`: looks the game text up and counts a hit on the user's ply. */
    method VisitPly(gameplay: string, usersPly: bool)
      modifies this
      ensures Opening() == ScanStep(old(Opening()), Lookup(book, gameplay, c.openingSep), usersPly)
      ensures isAnalyzed == old(isAnalyzed) && errorPerMove == old(errorPerMove) && timeSpentPerMove == old(timeSpentPerMove)
    {
      ghost var lookup := Lookup(book, gameplay, c.openingSep);
      assert lookup.Some? <==> gameplay in book;
      var hit := UpdateOpeningAndVariation(gameplay);
      ghost var next := Opening();
      if hit && usersPly {
        moveLeavingOpening := moveLeavingOpening + 1;
      }
      assert Opening() == if hit && usersPly then next.(leaving := next.leaving + 1) else next;
    }

    /** The loop of `_initOpenings`: walks the plies in order, growing the game text and looking each prefix up in the book. */
    method ScanBook(moves: seq<string>)
      modifies this
      ensures Opening() == ScanOpenings(old(Opening()), BookHits(moves, book, c.openingSep), userColor, |moves|)
      ensures isAnalyzed == old(isAnalyzed) && errorPerMove == old(errorPerMove) && timeSpentPerMove == old(timeSpentPerMove)
    {
      ghost var st0 := Opening();
      ghost var hits := BookHits(moves, book, c.openingSep);
      var gameplay: seq<string> := [];
      var turn := White;
      var i := 0;
      while i < |moves|
        invariant i <= |moves|
        invariant gameplay == Numbered(moves[..i])
        invariant turn == ColorAt(i)
        invariant Opening() == ScanOpenings(st0, hits, userColor, i)
        invariant isAnalyzed == old(isAnalyzed) && errorPerMove == old(errorPerMove) && timeSpentPerMove == old(timeSpentPerMove)
      {
        BookHitAt(moves, book, c.openingSep, i);
        gameplay := gameplay + [AddMoveOrder(i, moves[i])];
        VisitPly(Join(gameplay), turn == userColor);
        ChangeTurnAlternates(i, turn);
        turn := ChangeTurn(turn);
        i := i + 1;
      }
    }

    /**
     * `analyzeGame`: on a game not yet analysed, asks the engine before the
     * first ply and after every ply, and records the swing of each user ply;
     * each ply's evaluation after it is the next ply's evaluation before it.
   * The scores are `_calculateEval`'s as written (`CalculateEvalAsWritten`).
     * Like the source, it runs `_sanitize_pgn` again, so a game with clocks
     * gets its time entries a second time.
     */
    method AnalyzeGame() returns (analyzed: bool)
      requires Valid()
      modifies this
      ensures analyzed == !old(isAnalyzed)
      ensures AnalyzedFrom(old(isAnalyzed), old(errorPerMove), old(timeSpentPerMove))
      ensures Opening() == old(Opening())
    {
      if isAnalyzed {
        return false;
      }
      var moves, out := SanitizePgn();
      var turn := White;
      var before := CalculateEvalAsWritten(evaluations[0], c);
      var i := 0;
      while i < |moves|
        invariant i <= |moves| && moves == Moves()
        invariant turn == ColorAt(i)
        invariant before == CalculateEvalAsWritten(evaluations[i], c)
        invariant errorPerMove == old(errorPerMove) + MoveErrors(evaluations, userColor, c, i)
        invariant timeSpentPerMove == old(timeSpentPerMove) + ClockSection()
        invariant !isAnalyzed && Opening() == old(Opening())
      {
        var after := CalculateEvalAsWritten(evaluations[i + 1], c);
        if turn == userColor {
          errorPerMove := errorPerMove + [MoveError(before, after, c)];
        }
        before := after;
        turn := ChangeTurn(turn);
        i := i + 1;
      }
      isAnalyzed := true;
      analyzed := true;
    }

    /** The `validateAnalysis` wrapper of the lazy getters: analyse the game first if it has not been. */
    method EnsureAnalyzed()
      requires Valid()
      modifies this
      ensures AnalyzedFrom(old(isAnalyzed), old(errorPerMove), old(timeSpentPerMove))
      ensures Opening() == old(Opening())
    {
      if !isAnalyzed {
        var _ := AnalyzeGame();
      }
    }

    /** `getTimeSpent`, analysing the game first. */
    method GetTimeSpent() returns (r: seq<real>)
      requires Valid()
      modifies this
      ensures AnalyzedFrom(old(isAnalyzed), old(errorPerMove), old(timeSpentPerMove))
      ensures Opening() == old(Opening())
      ensures r == timeSpentPerMove
    {
      EnsureAnalyzed();
      r := timeSpentPerMove;
    }

    /** `getErrorPerMove`, analysing the game first. */
    method GetErrorPerMove() returns (r: seq<real>)
      requires Valid()
      modifies this
      ensures AnalyzedFrom(old(isAnalyzed), old(errorPerMove), old(timeSpentPerMove))
      ensures Opening() == old(Opening())
      ensures r == errorPerMove
    {
      EnsureAnalyzed();
      r := errorPerMove;
    }

    /** `getMainOpening`, analysing the game first. */
    method GetMainOpening() returns (r: string)
      requires Valid()
      modifies this
      ensures AnalyzedFrom(old(isAnalyzed), old(errorPerMove), old(timeSpentPerMove))
      ensures Opening() == old(Opening())
      ensures r == mainOpening
    {
      EnsureAnalyzed();
      r := mainOpening;
    }

    /** `getVariation`, analysing the game first. */
    method GetVariation() returns (r: Option<string>)
      requires Valid()
      modifies this
      ensures AnalyzedFrom(old(isAnalyzed), old(errorPerMove), old(timeSpentPerMove))
      ensures Opening() == old(Opening())
      ensures r == openingVariation
    {
      EnsureAnalyzed();
      r := openingVariation;
    }

    /** `getMoveLeavingOpening`, analysing the game first. */
    method GetMoveLeavingOpening() returns (r: nat)
      requires Valid()
      modifies this
      ensures AnalyzedFrom(old(isAnalyzed), old(errorPerMove), old(timeSpentPerMove))
      ensures Opening() == old(Opening())
      ensures r == moveLeavingOpening
    {
      EnsureAnalyzed();
      r := moveLeavingOpening;
    }

    /** `getName`, analysing the game first. */
    method GetName() returns (r: string)
      requires Valid()
      modifies this
      ensures AnalyzedFrom(old(isAnalyzed), old(errorPerMove), old(timeSpentPerMove))
      ensures Opening() == old(Opening())
      ensures r == NameOf(mainOpening, openingVariation, c.openingSep)
    {
      EnsureAnalyzed();
      r := NameOf(mainOpening, openingVariation, c.openingSep);
    }

    /** `getElo`: the rating of the side the user played, one of the game's two ratings. */
    function GetElo(): (e: int)
      ensures e == whiteElo || e == blackElo
      ensures whiteElo != blackElo ==> (e == whiteElo <==> userColor == White)
    {
      if userColor == White then whiteElo else blackElo
    }

    /** `getOpponentElo`: the rating of the other side; with the user's, the game's two ratings. */
    function GetOpponentElo(): (e: int)
      ensures multiset{GetElo(), e} == multiset{whiteElo, blackElo}
    {
      if userColor == White then blackElo else whiteElo
    }

    /** `getTotalTimeControl`: text that `extractTimeControl` reads back as the game's base time and bonus. */
    function GetTotalTimeControl(): (r: string)
      ensures c.Valid() ==> ExtractTimeControl(r, c) == Ok((timeControl, bonusTime))
    {
      var text := TotalTimeControl(timeControl, bonusTime, c);
      if c.Valid() then ExtractTimeControlRoundTrip(timeControl, bonusTime, c); text else text
    }
  }

  /**
   * The user's and the opponent's ratings are the two ratings of the game,
   * one each, and the user's is White's exactly when the user plays White.
   */
  lemma EloSides(g: SingleGame)
    ensures multiset{g.GetElo(), g.GetOpponentElo()} == multiset{g.whiteElo, g.blackElo}
    ensures g.GetElo() == g.whiteElo <== g.userColor == White
    ensures g.GetOpponentElo() == g.whiteElo <== g.userColor == Black
  {
  }
}
