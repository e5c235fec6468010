/**
 * The module-level helpers of the query layer: top-N slicing, per-move
 * aggregation with a sample bound, Elo banding, points, grouping of games,
 * selection of the most common openings and the argument validators.
 *
 * The helpers that take a list of openings in the Python code take here what
 * they read from it: the per-move lists of each opening (`counts[o]` is the
 * `getTotalTimesPlayedMove()` of the o-th opening, `values[o]` its
 * attribute list), or the openings' games and totals.
 */
module Queries {
  import opened Wrappers
  import opened Text
  import opened PyValues
  import opened Enums
  import opened Game
  import opened Openings
  import MoveStats

  /** The `Constants` the query helpers read. */
  datatype QueryConstants = QueryConstants(
    drawPoints: real,                       // DRAW_POINTS
    defaultWin: int, defaultDraw: int, defaultLoss: int,
    minTakeTop: int, maxTakeTop: int,       // MIN_VAL_FOR_TAKE_TOP, MAX_TAKE_TOP
    minSetGap: int,                         // MIN_VAL_FOR_SET_GAP
    minEloBound: int)                       // MIN_ELO_BOUND

  // ---------------------------------------------------------------------
  // Top-N slicing
  // ---------------------------------------------------------------------

  /**
   * `_updateSlicedItems`: the new threshold, the new drop count, and whether
   * the item is appended. An item below the threshold is a drop: it is taken,
   * and becomes the threshold, only while fewer than `takeTop` drops happened.
   */
  function UpdateSlicedItems(candidate: real, topItemVal: real, takeTopCounter: int, takeTop: int): (r: (real, int, bool))
    ensures candidate >= topItemVal ==> r == (topItemVal, takeTopCounter, true)
    ensures candidate < topItemVal ==> (r.2 <==> takeTopCounter < takeTop)
    ensures r.2 ==> r.0 == (if candidate < topItemVal then candidate else topItemVal)
    ensures r.1 == takeTopCounter + (if r.2 && candidate < topItemVal then 1 else 0)
    ensures !r.2 ==> r.0 == topItemVal
  {
    if candidate < topItemVal && takeTopCounter >= takeTop then (topItemVal, takeTopCounter, false)
    else if candidate < topItemVal && takeTopCounter < takeTop then (candidate, takeTopCounter + 1, true)
    else (topItemVal, takeTopCounter, true)
  }

  /** The state of the slicing loop: the threshold, the drop count, and one decision per item visited. */
  datatype SliceState = SliceState(threshold: real, counter: int, picks: seq<bool>)

  /** The items of `items` whose decision is `true`, in order. */
  function Select<T>(items: seq<T>, picks: seq<bool>): (r: seq<T>)
    requires |picks| == |items|
    ensures |r| <= |items|
    ensures forall x :: x in r ==> x in items
  {
    if |items| == 0 then []
    else Select(items[..|items| - 1], picks[..|items| - 1]) + (if picks[|items| - 1] then [items[|items| - 1]] else [])
  }

  /** Deciding one more item appends it to the selection exactly when the decision is `true`. */
  lemma SelectStep<T>(items: seq<T>, picks: seq<bool>, n: nat, b: bool)
    requires n < |items| && |picks| == n
    ensures Select(items[..n + 1], picks + [b]) == Select(items[..n], picks) + (if b then [items[n]] else [])
  {
    assert items[..n + 1][..n] == items[..n];
    assert (picks + [b])[..n] == picks;
  }

  function CountTrue(picks: seq<bool>): nat {
    if |picks| == 0 then 0 else CountTrue(picks[..|picks| - 1]) + (if picks[|picks| - 1] then 1 else 0)
  }

  /**
   * The slicing loop after its first `n` items, starting from the first value
   * as threshold and the drop count `c0`: the threshold is always a value
   * taken so far, and the count has grown by one per drop.
   */
  function SliceAfter(vals: seq<real>, n: nat, c0: int, takeTop: int): (r: SliceState)
    requires 1 <= |vals| && n <= |vals|
    ensures |r.picks| == n
    ensures n >= 1 ==> r.picks[0]
    ensures n == 0 ==> r.threshold == vals[0]
    ensures exists j :: 0 <= j < |vals| && j < n + 1 && r.threshold == vals[j]
  {
    if n == 0 then SliceState(vals[0], c0, [])
    else
      var p := SliceAfter(vals, n - 1, c0, takeTop);
      var u := UpdateSlicedItems(vals[n - 1], p.threshold, p.counter, takeTop);
      SliceState(u.0, u.1, p.picks + [u.2])
  }

  /** The values of `(label, value)` pairs. */
  function Values(items: seq<(string, real)>): (r: seq<real>)
    ensures |r| == |items| && forall i :: 0 <= i < |items| ==> r[i] == items[i].1
  {
    if |items| == 0 then [] else Values(items[..|items| - 1]) + [items[|items| - 1].1]
  }

  /** The items `_slicedTopItems` keeps from a non-empty list, with the drop count starting at `c0`. */
  function SlicedWith(items: seq<(string, real)>, c0: int, takeTop: int): (r: seq<(string, real)>)
    requires |items| > 0
  {
    Select(items, SliceAfter(Values(items), |items|, c0, takeTop).picks)
  }

  /**
   * `_slicedTopItems`: an empty list fails on its first item; otherwise the
   * loop keeps the items `_updateSlicedItems` appends, in order.
   */
  method SlicedTopItems(topItem: seq<(string, real)>, takeTop: int) returns (r: Result<seq<(string, real)>>)
    ensures |topItem| == 0 ==> r == Err(IndexError)
    ensures |topItem| > 0 ==> r == Ok(SlicedWith(topItem, 0, takeTop))
  {
    if |topItem| == 0 {
      return Err(IndexError);
    }
    ghost var vals := Values(topItem);
    var slicedItems: seq<(string, real)> := [];
    var takeTopCounter := 0;
    var topItemVal := topItem[0].1;
    ghost var picks: seq<bool> := [];
    var i := 0;
    while i < |topItem|
      invariant i <= |topItem|
      invariant SliceAfter(vals, i, 0, takeTop) == SliceState(topItemVal, takeTopCounter, picks)
      invariant slicedItems == Select(topItem[..i], picks)
    {
      var candidate := topItem[i].1;
      var parts := UpdateSlicedItems(candidate, topItemVal, takeTopCounter, takeTop);
      assert SliceAfter(vals, i + 1, 0, takeTop) == SliceState(parts.0, parts.1, picks + [parts.2]);
      SelectStep(topItem, picks, i, parts.2);
      if parts.2 {
        slicedItems := slicedItems + [topItem[i]];
      }
      topItemVal, takeTopCounter := parts.0, parts.1;
      picks := picks + [parts.2];
      i := i + 1;
    }
    assert topItem[..i] == topItem;
    r := Ok(slicedItems);
  }

  /** `_slicedTopItems` as intended: the first item counts as the first of the `takeTop` values kept. */
  function SlicedTopItemsCorrected(topItem: seq<(string, real)>, takeTop: int): (r: Result<seq<(string, real)>>)
    ensures |topItem| == 0 <==> r == Err(IndexError)
    ensures r.Ok? ==> r.value == SlicedWith(topItem, 1, takeTop)
  {
    if |topItem| == 0 then Err(IndexError) else Ok(SlicedWith(topItem, 1, takeTop))
  }

  /** The slice always keeps the first item, and keeps only items of the list, in their order. */
  lemma SlicedKeepsFirst(items: seq<(string, real)>, c0: int, takeTop: int)
    requires |items| > 0
    ensures |SlicedWith(items, c0, takeTop)| >= 1 && SlicedWith(items, c0, takeTop)[0] == items[0]
    ensures forall x :: x in SlicedWith(items, c0, takeTop) ==> x in items
  {
    var picks := SliceAfter(Values(items), |items|, c0, takeTop).picks;
    SelectFirst(items, picks);
  }

  lemma {:induction false} SelectFirst<T>(items: seq<T>, picks: seq<bool>)
    requires |picks| == |items| && |items| > 0 && picks[0]
    ensures |Select(items, picks)| >= 1 && Select(items, picks)[0] == items[0]
  {
    if |items| > 1 {
      SelectFirst(items[..|items| - 1], picks[..|items| - 1]);
    }
  }

  /** The number of items kept is the number of `true` decisions. */
  lemma {:induction false} SelectCount<T>(items: seq<T>, picks: seq<bool>)
    requires |picks| == |items|
    ensures |Select(items, picks)| == CountTrue(picks)
  {
    if |items| > 0 {
      SelectCount(items[..|items| - 1], picks[..|items| - 1]);
    }
  }

  /** All decisions `true` keep every item. */
  lemma {:induction false} SelectAll<T>(items: seq<T>, picks: seq<bool>)
    requires |picks| == |items| && forall i :: 0 <= i < |picks| ==> picks[i]
    ensures Select(items, picks) == items
  {
    if |items| > 0 {
      SelectAll(items[..|items| - 1], picks[..|items| - 1]);
      assert items[..|items| - 1] + [items[|items| - 1]] == items;
    }
  }

  /**
   * The drop count never passes `takeTop` (from a start within it), and
   * grows only with the items taken.
   */
  lemma {:induction false} SliceCounterBound(vals: seq<real>, n: nat, c0: int, takeTop: int)
    requires 1 <= |vals| && n <= |vals| && c0 <= takeTop
    ensures c0 <= SliceAfter(vals, n, c0, takeTop).counter <= takeTop
    ensures n >= 1 ==> SliceAfter(vals, n, c0, takeTop).counter <= c0 + n - 1
  {
    if n > 0 {
      SliceCounterBound(vals, n - 1, c0, takeTop);
    }
  }

  /** A `takeTop` at least the number of items after the first (as written) keeps the whole list. */
  lemma {:induction false} SliceKeepsAllWhenLarge(vals: seq<real>, n: nat, takeTop: int)
    requires 1 <= |vals| && n <= |vals| && takeTop >= |vals| - 1
    ensures forall i :: 0 <= i < n ==> SliceAfter(vals, n, 0, takeTop).picks[i]
  {
    if n > 0 {
      SliceKeepsAllWhenLarge(vals, n - 1, takeTop);
      SliceCounterBound(vals, n - 1, 0, takeTop);
      if n - 1 >= 1 {
        assert SliceAfter(vals, n - 1, 0, takeTop).counter <= n - 2;
      }
    }
  }

  lemma SlicedKeepsAllWhenLarge(items: seq<(string, real)>, takeTop: int)
    requires |items| > 0 && takeTop >= |items| - 1
    ensures SlicedWith(items, 0, takeTop) == items
  {
    var vals := Values(items);
    SliceKeepsAllWhenLarge(vals, |vals|, takeTop);
    SelectAll(items, SliceAfter(vals, |vals|, 0, takeTop).picks);
  }

  predicate StrictlyDecreasing(vals: seq<real>) {
    forall i, j :: 0 <= i < j < |vals| ==> vals[j] < vals[i]
  }

  /**
   * On strictly decreasing values every item after the first is a drop, so
   * exactly `takeTop - c0 + 1` items are kept (or all of them, if fewer).
   */
  lemma {:induction false} SliceDecreasingCount(vals: seq<real>, n: nat, c0: int, takeTop: int) returns (j: nat)
    requires 1 <= n <= |vals| && c0 <= takeTop && StrictlyDecreasing(vals)
    ensures SliceAfter(vals, n, c0, takeTop).counter == c0 + CountTrue(SliceAfter(vals, n, c0, takeTop).picks) - 1
    ensures CountTrue(SliceAfter(vals, n, c0, takeTop).picks) == if n < takeTop - c0 + 1 then n else takeTop - c0 + 1
    ensures j < n && SliceAfter(vals, n, c0, takeTop).threshold == vals[j]
  {
    if n == 1 {
      SliceFirst(vals, c0, takeTop);
      assert CountTrue([true]) == CountTrue([]) + 1;
      j := 0;
    } else {
      var i := SliceDecreasingCount(vals, n - 1, c0, takeTop);
      assert vals[n - 1] < vals[i];
      SliceDropStep(vals, n, c0, takeTop);
      j := if SliceAfter(vals, n, c0, takeTop).threshold == vals[n - 1] then n - 1 else i;
    }
  }

  /** The first item is always taken, as the threshold itself, and is no drop. */
  lemma SliceFirst(vals: seq<real>, c0: int, takeTop: int)
    requires 1 <= |vals|
    ensures SliceAfter(vals, 1, c0, takeTop) == SliceState(vals[0], c0, [true])
  {
    assert SliceAfter(vals, 0, c0, takeTop) == SliceState(vals[0], c0, []);
    assert UpdateSlicedItems(vals[0], vals[0], c0, takeTop) == (vals[0], c0, true);
  }

  /** One more item below the threshold: it is taken, as a drop, exactly while fewer than `takeTop - c0 + 1` items are. */
  lemma SliceDropStep(vals: seq<real>, n: nat, c0: int, takeTop: int)
    requires 2 <= n <= |vals|
    requires var q := SliceAfter(vals, n - 1, c0, takeTop);
      q.counter == c0 + CountTrue(q.picks) - 1 && vals[n - 1] < q.threshold &&
      CountTrue(q.picks) == if n - 1 < takeTop - c0 + 1 then n - 1 else takeTop - c0 + 1
    ensures var p, q := SliceAfter(vals, n, c0, takeTop), SliceAfter(vals, n - 1, c0, takeTop);
      p.counter == c0 + CountTrue(p.picks) - 1 &&
      CountTrue(p.picks) == (if n < takeTop - c0 + 1 then n else takeTop - c0 + 1) &&
      (p.threshold == vals[n - 1] || p.threshold == q.threshold)
  {
    var p, q := SliceAfter(vals, n, c0, takeTop), SliceAfter(vals, n - 1, c0, takeTop);
    var u := UpdateSlicedItems(vals[n - 1], q.threshold, q.counter, takeTop);
    assert p.picks[..n - 1] == q.picks;
    assert CountTrue(p.picks) == CountTrue(q.picks) + (if u.2 then 1 else 0);
  }

  /** As written, a strictly decreasing list keeps `takeTop + 1` items: one more than asked for. */
  lemma SlicedDecreasingAsWritten(items: seq<(string, real)>, takeTop: nat)
    requires |items| > takeTop && StrictlyDecreasing(Values(items))
    ensures |SlicedWith(items, 0, takeTop)| == takeTop + 1
  {
    var vals := Values(items);
    var _ := SliceDecreasingCount(vals, |vals|, 0, takeTop);
    SelectCount(items, SliceAfter(vals, |vals|, 0, takeTop).picks);
  }

  /** The list that shows it: three decreasing values with `takeTop == 1` keep two items. */
  lemma SlicedTopItemsKeepsOneTooMany()
    ensures |SlicedWith([("a", 3.0), ("b", 2.0), ("c", 1.0)], 0, 1)| == 2
  {
    var items := [("a", 3.0), ("b", 2.0), ("c", 1.0)];
    assert Values(items) == [3.0, 2.0, 1.0];
    SlicedDecreasingAsWritten(items, 1);
  }

  /** Corrected, a strictly decreasing list of at least `takeTop >= 1` items keeps exactly `takeTop`. */
  lemma SlicedDecreasingCorrected(items: seq<(string, real)>, takeTop: nat)
    requires takeTop >= 1 && |items| >= takeTop && StrictlyDecreasing(Values(items))
    ensures SlicedTopItemsCorrected(items, takeTop).Ok?
    ensures |SlicedTopItemsCorrected(items, takeTop).value| == takeTop
  {
    var vals := Values(items);
    var _ := SliceDecreasingCount(vals, |vals|, 1, takeTop);
    SelectCount(items, SliceAfter(vals, |vals|, 1, takeTop).picks);
  }

  // ---------------------------------------------------------------------
  // Per-move counts, the move bound and per-move averages
  // ---------------------------------------------------------------------

  /** Entry `idx` summed over the lists long enough to have one. */
  function SumAt(counts: seq<seq<int>>, idx: nat): int {
    if |counts| == 0 then 0
    else SumAt(counts[..|counts| - 1], idx) + (if idx < |counts[|counts| - 1]| then counts[|counts| - 1][idx] else 0)
  }

  /** `max(len(l) for l in counts, default=0)`. */
  function Longest(counts: seq<seq<int>>): (r: nat)
    ensures forall o :: 0 <= o < |counts| ==> |counts[o]| <= r
    ensures |counts| == 0 ==> r == 0
    ensures |counts| > 0 ==> exists o :: 0 <= o < |counts| && |counts[o]| == r
  {
    if |counts| == 0 then 0
    else
      var m := Longest(counts[..|counts| - 1]);
      assert forall o :: 0 <= o < |counts| - 1 ==> counts[o] == counts[..|counts| - 1][o];
      if |counts[|counts| - 1]| > m then |counts[|counts| - 1]| else m
  }

  /**
   * `_initTotalTimesPlayed`: a list of `longestMovePlayed` zeros, then each
   * opening's counts added by index; an opening with more entries than that
   * makes the index fail.
   */
  method InitTotalTimesPlayed(longestMovePlayed: nat, counts: seq<seq<int>>) returns (r: Result<seq<int>>)
    ensures r.Ok? <==> forall o :: 0 <= o < |counts| ==> |counts[o]| <= longestMovePlayed
    ensures r.Err? ==> r.error == IndexError
    ensures r.Ok? ==> |r.value| == longestMovePlayed && forall i :: 0 <= i < longestMovePlayed ==> r.value[i] == SumAt(counts, i)
  {
    var total := seq(longestMovePlayed, _ => 0);
    var o := 0;
    while o < |counts|
      invariant o <= |counts| && |total| == longestMovePlayed
      invariant forall p :: 0 <= p < o ==> |counts[p]| <= longestMovePlayed
      invariant forall i :: 0 <= i < longestMovePlayed ==> total[i] == SumAt(counts[..o], i)
    {
      assert counts[..o + 1][..o] == counts[..o];
      var idx := 0;
      while idx < |counts[o]|
        invariant idx <= |counts[o]| && |total| == longestMovePlayed && idx <= longestMovePlayed
        invariant forall i :: 0 <= i < longestMovePlayed ==>
          total[i] == SumAt(counts[..o], i) + (if i < idx then counts[o][i] else 0)
      {
        if idx >= longestMovePlayed {
          return Err(IndexError);
        }
        total := total[idx := total[idx] + counts[o][idx]];
        idx := idx + 1;
      }
      o := o + 1;
    }
    assert counts[..o] == counts;
    r := Ok(total);
  }

  /** The first index from `i` on whose summed count is below `bound`, or `longest` if there is none. */
  function FirstUnder(counts: seq<seq<int>>, bound: int, i: nat, longest: nat): (r: nat)
    requires i <= longest
    ensures i <= r <= longest
    ensures forall j :: i <= j < r ==> SumAt(counts, j) >= bound
    ensures r < longest ==> SumAt(counts, r) < bound
    decreases longest - i
  {
    if i == longest then longest
    else if SumAt(counts, i) < bound then i
    else FirstUnder(counts, bound, i + 1, longest)
  }

  /**
   * `_checkMoveOverBound`: the first move index whose count summed over the
   * openings is below `bound`, or the longest count list's length when every
   * index reaches it.
   */
  function MoveBound(counts: seq<seq<int>>, bound: int): (r: nat)
    ensures r <= Longest(counts)
    ensures forall i :: 0 <= i < r ==> SumAt(counts, i) >= bound
    ensures r < Longest(counts) ==> SumAt(counts, r) < bound
  {
    FirstUnder(counts, bound, 0, Longest(counts))
  }

  /** `_checkMoveOverBound`, by its loop over the summed counts. */
  method CheckMoveOverBound(counts: seq<seq<int>>, bound: int) returns (r: nat)
    ensures r == MoveBound(counts, bound)
  {
    var longestMovePlayed := Longest(counts);
    var totals := InitTotalTimesPlayed(longestMovePlayed, counts);
    var i := 0;
    while i < |totals.value|
      invariant i <= |totals.value|
      invariant FirstUnder(counts, bound, i, longestMovePlayed) == MoveBound(counts, bound)
    {
      if totals.value[i] < bound {
        return i;
      }
      i := i + 1;
    }
    return longestMovePlayed;
  }

  /** Entry `i` of each list long enough to have one, summed. */
  function SumAtReal(values: seq<seq<real>>, i: nat): real {
    if |values| == 0 then 0.0
    else SumAtReal(values[..|values| - 1], i) + (if i < |values[|values| - 1]| then values[|values| - 1][i] else 0.0)
  }

  /** The number of lists long enough to have an entry `i`. */
  function CountAt(values: seq<seq<real>>, i: nat): nat {
    if |values| == 0 then 0
    else CountAt(values[..|values| - 1], i) + (if i < |values[|values| - 1]| then 1 else 0)
  }

  /** The mean of entry `i` over the lists that have one. */
  function MeanAt(values: seq<seq<real>>, i: nat): real
    requires CountAt(values, i) != 0
  {
    SumAtReal(values, i) / CountAt(values, i) as real
  }

  /**
   * `(str(i), summed[i] / counter[i])` for every index below `n` that some
   * list reaches, in index order: what `_calculateAvgPerMove` is meant to
   * return for the move bound `n`.
   */
  function AvgEntries(values: seq<seq<real>>, n: nat): (r: seq<(string, real)>)
    ensures |r| <= n
    ensures forall i :: 0 <= i < n && CountAt(values, i) != 0 ==> (NatToString(i), MeanAt(values, i)) in r
    ensures forall e :: e in r ==> exists i :: 0 <= i < n && CountAt(values, i) != 0 && e == (NatToString(i), MeanAt(values, i))
  {
    if n == 0 then []
    else
      AvgEntries(values, n - 1) +
        (if CountAt(values, n - 1) != 0 then [(NatToString(n - 1), MeanAt(values, n - 1))] else [])
  }

  /**
   * `_calculateAvgPerMove` as written: the sums and counters have one entry
   * per index below the move bound, and any opening whose list is longer
   * indexes past them.
   */
  function AvgPerMoveAsWritten(values: seq<seq<real>>, counts: seq<seq<int>>, bound: int): (r: Result<seq<(string, real)>>)
    ensures r.Err? <==> exists o :: 0 <= o < |values| && |values[o]| > MoveBound(counts, bound)
    ensures r.Err? ==> r.error == IndexError
    ensures r.Ok? ==> r.value == AvgEntries(values, MoveBound(counts, bound))
  {
    var n := MoveBound(counts, bound);
    if exists o :: 0 <= o < |values| && |values[o]| > n then Err(IndexError) else Ok(AvgEntries(values, n))
  }

  /** `_calculateAvgPerMove`, with its accumulation loops, as written. */
  method CalculateAvgPerMove(values: seq<seq<real>>, counts: seq<seq<int>>, bound: int) returns (r: Result<seq<(string, real)>>)
    ensures r == AvgPerMoveAsWritten(values, counts, bound)
  {
    var n := CheckMoveOverBound(counts, bound);
    var summed, counter := seq(n, _ => 0.0), seq(n, _ => 0);
    var o := 0;
    while o < |values|
      invariant o <= |values| && |summed| == n && |counter| == n
      invariant forall p :: 0 <= p < o ==> |values[p]| <= n
      invariant forall i :: 0 <= i < n ==> summed[i] == SumAtReal(values[..o], i) && counter[i] == CountAt(values[..o], i)
    {
      assert values[..o + 1][..o] == values[..o];
      var i := 0;
      while i < |values[o]|
        invariant i <= |values[o]| && i <= n && |summed| == n && |counter| == n
        invariant forall j :: 0 <= j < n ==>
          summed[j] == SumAtReal(values[..o], j) + (if j < i then values[o][j] else 0.0) &&
          counter[j] == CountAt(values[..o], j) + (if j < i then 1 else 0)
      {
        if i >= n {
          return Err(IndexError);
        }
        summed := summed[i := summed[i] + values[o][i]];
        counter := counter[i := counter[i] + 1];
        i := i + 1;
      }
      o := o + 1;
    }
    assert values[..o] == values;
    var avg: seq<(string, real)> := [];
    var i := 0;
    while i < n
      invariant i <= n
      invariant avg == AvgEntries(values, i)
    {
      if counter[i] != 0 {
        avg := avg + [(NatToString(i), summed[i] / counter[i] as real)];
      }
      i := i + 1;
    }
    r := Ok(avg);
  }

  /**
   * The input that shows the overrun: two openings, the first counted 2
   * times at move 0 and once at move 1, the second once at move 0, sum to 3
   * and 1 per move; a minimum of 2 games cuts the moves at 1, and the first
   * opening's two-entry list then indexes past the one-entry sums, where one
   * average per move below the cut was meant.
   */
  lemma AvgPerMoveOverrun()
    ensures AvgPerMoveAsWritten([[1.0, 2.0], [3.0]], [[2, 1], [1]], 2) == Err(IndexError)
    ensures AvgEntries([[1.0, 2.0], [3.0]], MoveBound([[2, 1], [1]], 2)) == [("0", 2.0)]
  {
    var counts := [[2, 1], [1]];
    var values := [[1.0, 2.0], [3.0]];
    assert counts[..1] == [[2, 1]];
    assert Longest(counts) == 2;
    assert SumAt(counts, 0) == 3;
    assert SumAt(counts, 1) == 1;
    assert MoveBound(counts, 2) == 1;
    assert |values[0]| > 1;
    assert values[..1] == [[1.0, 2.0]];
    assert CountAt(values, 0) == 2;
    assert SumAtReal(values, 0) == 4.0;
    assert NatToString(0) == "0";
  }

  // ---------------------------------------------------------------------
  // Records, points and Elo bands
  // ---------------------------------------------------------------------

  /** `_totalGames`: wins, losses and draws of a record; a missing key fails. */
  function TotalGames(record: map<string, int>, k: EnumConstants): (r: Result<int>)
    ensures r.Ok? <==> k.winKey in record && k.lossKey in record && k.drawKey in record
    ensures r.Err? ==> r.error == KeyError
    ensures r.Ok? ==> r.value == record[k.winKey] + record[k.lossKey] + record[k.drawKey]
  {
    if k.winKey in record && k.lossKey in record && k.drawKey in record then
      Ok(record[k.winKey] + record[k.lossKey] + record[k.drawKey])
    else Err(KeyError)
  }

  /** The record of a list of games counts every game once. */
  lemma TotalGamesOfRecord(games: seq<SingleGame>, k: EnumConstants)
    requires k.Valid()
    ensures TotalGames(Record(games, k), k) == Ok(|games|)
  {
  }

  /**
   * `_averagePoints`: wins plus `drawPoints` per draw, over the number of
   * games, or 0 for a record with no games; a missing key fails.
   */
  function AveragePoints(record: map<string, int>, k: EnumConstants, q: QueryConstants): (r: Result<real>)
    ensures r.Ok? <==> k.winKey in record && k.lossKey in record && k.drawKey in record
    ensures r.Err? ==> r.error == KeyError
    ensures r.Ok? && TotalGames(record, k).value <= 0 ==> r.value == 0.0
  {
    if !(k.winKey in record && k.lossKey in record && k.drawKey in record) then Err(KeyError)
    else
      var total := record[k.winKey] + record[k.drawKey] + record[k.lossKey];
      var points := record[k.winKey] as real + q.drawPoints * record[k.drawKey] as real;
      if total > 0 then Ok(points / total as real) else Ok(0.0)
  }

  /** Over a record with games, the average times the number of games is the points scored. */
  lemma AveragePointsScaled(record: map<string, int>, k: EnumConstants, q: QueryConstants)
    requires TotalGames(record, k).Ok? && TotalGames(record, k).value > 0
    ensures AveragePoints(record, k, q).value * TotalGames(record, k).value as real ==
      record[k.winKey] as real + q.drawPoints * record[k.drawKey] as real
  {
    var total := TotalGames(record, k).value as real;
    var points := record[k.winKey] as real + q.drawPoints * record[k.drawKey] as real;
    assert total == (record[k.winKey] + record[k.drawKey] + record[k.lossKey]) as real;
    assert AveragePoints(record, k, q).value == points / total;
    MoveStats.DivTimes(points, total);
  }

  /** With counts that are not negative and a draw worth between nothing and a win, the average lies in [0, 1]. */
  lemma AveragePointsBounds(record: map<string, int>, k: EnumConstants, q: QueryConstants)
    requires k.winKey in record && k.lossKey in record && k.drawKey in record
    requires record[k.winKey] >= 0 && record[k.lossKey] >= 0 && record[k.drawKey] >= 0
    requires 0.0 <= q.drawPoints <= 1.0
    ensures 0.0 <= AveragePoints(record, k, q).value <= 1.0
  {
    var total := record[k.winKey] + record[k.drawKey] + record[k.lossKey];
    if total > 0 {
      var points := record[k.winKey] as real + q.drawPoints * record[k.drawKey] as real;
      PointsWithin(record[k.winKey], record[k.drawKey], record[k.lossKey], q.drawPoints);
      RatioInUnit(points, total as real);
      assert AveragePoints(record, k, q).value == points / total as real;
    }
  }

  /** Wins plus a fraction of each draw lie between nothing and the number of games. */
  lemma PointsWithin(w: int, d: int, l: int, drawPoints: real)
    requires w >= 0 && d >= 0 && l >= 0 && 0.0 <= drawPoints <= 1.0
    ensures 0.0 <= w as real + drawPoints * d as real <= (w + d + l) as real
  {
    ScaledBelow(drawPoints, d as real);
    SumWithin(w, d, l, drawPoints * d as real);
  }

  lemma SumWithin(w: int, d: int, l: int, drawn: real)
    requires w >= 0 && d >= 0 && l >= 0 && 0.0 <= drawn <= d as real
    ensures 0.0 <= w as real + drawn <= (w + d + l) as real
  {
  }

  lemma RatioInUnit(p: real, t: real)
    requires 0.0 <= p <= t && t > 0.0
    ensures 0.0 <= p / t <= 1.0
  {
    var x := p / t;
    assert x * t == p;
    if x > 1.0 {
      ScaledAbove(x, t);
    }
  }

  lemma ScaledBelow(a: real, b: real)
    requires 0.0 <= a <= 1.0 && b >= 0.0
    ensures 0.0 <= a * b <= b
  {
    assert (1.0 - a) * b >= 0.0;
  }

  lemma ScaledAbove(a: real, b: real)
    requires a > 1.0 && b > 0.0
    ensures a * b > b
  {
    assert (a - 1.0) * b > 0.0;
  }

  /** An Elo band `(left, right)`: a key of the dictionary of `_initEloDict`. */
  datatype Band = Band(lo: int, hi: int)

  predicate InBand(b: Band, elo: int) {
    b.lo <= elo <= b.hi
  }

  /** `{WIN_KEY: DEFAULT_WIN_VAL, DRAW_KEY: DEFAULT_DRAW_VAL, LOSS_KEY: DEFAULT_LOSS_VAL}`. */
  function DefaultRecord(k: EnumConstants, q: QueryConstants): map<string, int> {
    map[k.winKey := q.defaultWin, k.drawKey := q.defaultDraw, k.lossKey := q.defaultLoss]
  }

  function MinOf(xs: seq<int>): (m: int)
    requires |xs| > 0
    ensures m in xs && forall i :: 0 <= i < |xs| ==> m <= xs[i]
  {
    if |xs| == 1 then xs[0]
    else
      var m := MinOf(xs[1..]);
      if xs[0] < m then xs[0] else m
  }

  function MaxOf(xs: seq<int>): (m: int)
    requires |xs| > 0
    ensures m in xs && forall i :: 0 <= i < |xs| ==> xs[i] <= m
  {
    if |xs| == 1 then xs[0]
    else
      var m := MaxOf(xs[1..]);
      if xs[0] > m then xs[0] else m
  }

  /** The bands form a chain of width `gap` from `lo`: band `i` is `[lo + i·gap, lo + (i+1)·gap]`. */
  predicate Chain(table: seq<(Band, map<string, int>)>, lo: int, gap: int) {
    forall i :: 0 <= i < |table| ==> table[i].0 == Band(lo + i * gap, lo + (i + 1) * gap)
  }

  /**
   * `_initEloDict` over the opponents' Elo ratings of all games: bands of
   * width `setGap` from the lowest rating, each starting where the previous
   * ends, added while the right edge stays below the highest rating, plus a
   * final band that reaches it; every band holds the default record. With no
   * games, `min` of an empty sequence fails.
   */
  method InitEloDict(elos: seq<int>, setGap: int, k: EnumConstants, q: QueryConstants)
    returns (r: Result<seq<(Band, map<string, int>)>>)
    requires setGap > 0
    ensures |elos| == 0 <==> r == Err(ValueError)
    ensures r.Ok? ==> |r.value| >= 1 && Chain(r.value, MinOf(elos), setGap)
    ensures r.Ok? ==> forall i :: 0 <= i < |r.value| - 1 ==> r.value[i].0.hi < MaxOf(elos)
    ensures r.Ok? ==> r.value[|r.value| - 1].0.hi >= MaxOf(elos)
    ensures r.Ok? ==> forall i :: 0 <= i < |r.value| ==> r.value[i].1 == DefaultRecord(k, q)
  {
    if |elos| == 0 {
      return Err(ValueError);
    }
    var lowestEloPlayed, maxEloPlayed := MinOf(elos), MaxOf(elos);
    var left, right := lowestEloPlayed, lowestEloPlayed + setGap;
    var result: seq<(Band, map<string, int>)> := [];
    while right < maxEloPlayed
      invariant Chain(result, lowestEloPlayed, setGap)
      invariant left == lowestEloPlayed + |result| * setGap && right == left + setGap
      invariant forall i :: 0 <= i < |result| ==> result[i].0.hi < maxEloPlayed && result[i].1 == DefaultRecord(k, q)
      decreases maxEloPlayed - right
    {
      ChainGrows(result, lowestEloPlayed, setGap, DefaultRecord(k, q));
      result := result + [(Band(left, right), DefaultRecord(k, q))];
      left, right := right, right + setGap;
    }
    ChainGrows(result, lowestEloPlayed, setGap, DefaultRecord(k, q));
    result := result + [(Band(left, right), DefaultRecord(k, q))];
    r := Ok(result);
  }

  /** The next band of a chain starts where the chain ends and is `gap` wide. */
  lemma ChainGrows(table: seq<(Band, map<string, int>)>, lo: int, gap: int, m: map<string, int>)
    requires Chain(table, lo, gap)
    ensures Chain(table + [(Band(lo + |table| * gap, lo + |table| * gap + gap), m)], lo, gap)
    ensures lo + |table| * gap + gap == lo + (|table| + 1) * gap
  {
    assert (|table| + 1) * gap == |table| * gap + gap;
  }

  /** The chain from `lo` without its first band is the chain from the next band's start. */
  lemma ChainTail(table: seq<(Band, map<string, int>)>, lo: int, gap: int)
    requires |table| >= 1 && Chain(table, lo, gap)
    ensures table[0].0 == Band(lo, lo + gap)
    ensures Chain(table[1..], lo + gap, gap)
  {
    assert table[0].0 == Band(lo + 0 * gap, lo + (0 + 1) * gap);
    forall i | 0 <= i < |table| - 1
      ensures table[1..][i].0 == Band(lo + gap + i * gap, lo + gap + (i + 1) * gap)
    {
      assert table[i + 1].0 == Band(lo + (i + 1) * gap, lo + (i + 1 + 1) * gap);
      assert (i + 1) * gap == gap + i * gap;
      assert (i + 1 + 1) * gap == gap + (i + 1) * gap;
    }
  }

  /** `_findKeyInterval`: the position of the first band holding `elo`, or nothing (Python's implicit `None`). */
  function FindKeyInterval(table: seq<(Band, map<string, int>)>, elo: int): (r: Option<nat>)
    ensures r.None? <==> forall i :: 0 <= i < |table| ==> !InBand(table[i].0, elo)
    ensures r.Some? ==> r.value < |table| && InBand(table[r.value].0, elo)
    ensures r.Some? ==> forall i :: 0 <= i < r.value ==> !InBand(table[i].0, elo)
  {
    if |table| == 0 then None
    else if InBand(table[0].0, elo) then Some(0)
    else
      match FindKeyInterval(table[1..], elo)
      case None => None
      case Some(i) => Some(i + 1)
  }

  /** Every rating between the lowest and the highest falls in a band of the chain `_initEloDict` builds. */
  lemma {:induction false} EveryEloHasBand(table: seq<(Band, map<string, int>)>, lo: int, hi: int, gap: int, elo: int)
    requires gap > 0 && |table| >= 1 && Chain(table, lo, gap) && table[|table| - 1].0.hi >= hi
    requires lo <= elo <= hi
    ensures FindKeyInterval(table, elo).Some?
    decreases |table|
  {
    ChainTail(table, lo, gap);
    if elo > lo + gap {
      assert |table| > 1;
      assert table[1..][|table| - 2] == table[|table| - 1];
      EveryEloHasBand(table[1..], lo + gap, hi, gap, elo);
    }
  }

  /** The record key of a result; anything but a win or a loss counts as a draw. */
  function ResultKey(result: ChessResult, k: EnumConstants): string {
    if result == Win then k.winKey else if result == Loss then k.lossKey else k.drawKey
  }

  /**
   * `_updateResult`: adds one game to the record of the first band holding
   * the opponent's rating, under the key of its result; a rating outside
   * every band makes the lookup `result[None]` fail.
   */
  function UpdateResult(table: seq<(Band, map<string, int>)>, opponentElo: int, result: ChessResult, k: EnumConstants)
    : (r: Result<seq<(Band, map<string, int>)>>)
    ensures FindKeyInterval(table, opponentElo).None? ==> r == Err(KeyError)
    ensures r.Ok? ==> |r.value| == |table| && forall i :: 0 <= i < |table| ==> r.value[i].0 == table[i].0
    ensures r.Ok? ==>
      var i := FindKeyInterval(table, opponentElo).value;
      var key := ResultKey(result, k);
      key in table[i].1 && r.value[i].1 == table[i].1[key := table[i].1[key] + 1] &&
      forall j :: 0 <= j < |table| && j != i ==> r.value[j] == table[j]
    ensures FindKeyInterval(table, opponentElo).Some? && ResultKey(result, k) in table[FindKeyInterval(table, opponentElo).value].1 ==> r.Ok?
  {
    match FindKeyInterval(table, opponentElo)
    case None => Err(KeyError)
    case Some(i) =>
      var key := ResultKey(result, k);
      if key !in table[i].1 then Err(KeyError)
      else Ok(table[i := (table[i].0, table[i].1[key := table[i].1[key] + 1])])
  }

  /** Adding a game to a table of default records raises exactly one count by one: the table's total grows by one. */
  lemma UpdateResultAddsOneGame(table: seq<(Band, map<string, int>)>, opponentElo: int, result: ChessResult, k: EnumConstants, b: nat)
    requires k.Valid()
    requires b < |table| && forall i :: 0 <= i < |table| ==> TotalGames(table[i].1, k).Ok?
    requires UpdateResult(table, opponentElo, result, k).Ok?
    ensures TotalGames(UpdateResult(table, opponentElo, result, k).value[b].1, k).Ok?
    ensures TotalGames(UpdateResult(table, opponentElo, result, k).value[b].1, k).value ==
      TotalGames(table[b].1, k).value + (if FindKeyInterval(table, opponentElo) == Some(b) then 1 else 0)
  {
  }

  // ---------------------------------------------------------------------
  // Grouping games and bounding by the number of games
  // ---------------------------------------------------------------------

  /** The games of the openings, opening by opening, each in history order. */
  function GamesOf(openings: seq<OpeningData>): (r: seq<SingleGame>)
    reads set o | o in openings
    ensures forall i, n :: 0 <= i < |openings| && 0 <= n < |openings[i].history| ==> openings[i].history[n] in r
    ensures forall m :: 0 <= m < |r| ==> exists i :: 0 <= i < |openings| && r[m] in openings[i].history
  {
    if |openings| == 0 then []
    else
      var prefix := openings[..|openings| - 1];
      assert forall i :: 0 <= i < |prefix| ==> prefix[i] == openings[i];
      GamesOf(prefix) + openings[|openings| - 1].history
  }

  /** The items of `items` whose key is `k`, in order. */
  function KeyedItems<T>(items: seq<T>, key: T -> string, k: string): seq<T> {
    if |items| == 0 then []
    else KeyedItems(items[..|items| - 1], key, k) + (if key(items[|items| - 1]) == k then [items[|items| - 1]] else [])
  }

  /** The position of the group named `k`, if there is one. */
  function GroupIndex<T>(groups: seq<(string, seq<T>)>, k: string): (r: Option<nat>)
    ensures r.None? <==> forall i :: 0 <= i < |groups| ==> groups[i].0 != k
    ensures r.Some? ==> r.value < |groups| && groups[r.value].0 == k
  {
    if |groups| == 0 then None
    else if groups[|groups| - 1].0 == k then Some(|groups| - 1)
    else GroupIndex(groups[..|groups| - 1], k)
  }

  /** No two groups share a key. */
  predicate DistinctKeys<T>(groups: seq<(string, seq<T>)>) {
    forall i, j :: 0 <= i < j < |groups| ==> groups[i].0 != groups[j].0
  }

  /** `games[k].append(x)` on a `defaultdict(list)` kept in insertion order. */
  function AddToGroup<T>(groups: seq<(string, seq<T>)>, k: string, x: T): (r: seq<(string, seq<T>)>)
    ensures |groups| <= |r| <= |groups| + 1
    ensures forall i :: 0 <= i < |groups| ==> r[i].0 == groups[i].0
    ensures |r| == |groups| + 1 ==> r[|groups|] == (k, [x]) && GroupIndex(groups, k).None?
    ensures GroupIndex(r, k).Some?
    ensures DistinctKeys(groups) ==> DistinctKeys(r)
  {
    match GroupIndex(groups, k)
    case Some(i) => groups[i := (k, groups[i].1 + [x])]
    case None => groups + [(k, [x])]
  }

  /**
   * The grouping loop of `_initGamesAgainstPlayer` and
   * `_initGamesFilteredTimeControl`: one group per key, in order of first
   * appearance, covering every item (contents in `GroupByContents`).
   */
  function GroupBy<T>(items: seq<T>, key: T -> string): (r: seq<(string, seq<T>)>)
    ensures DistinctKeys(r)
    ensures forall n :: 0 <= n < |items| ==> GroupIndex(r, key(items[n])).Some?
  {
    if |items| == 0 then []
    else
      var groups := GroupBy(items[..|items| - 1], key);
      var r := AddToGroup(groups, key(items[|items| - 1]), items[|items| - 1]);
      assert forall n :: 0 <= n < |items| - 1 ==> items[..|items| - 1][n] == items[n];
      r
  }

  /** Each group holds exactly the items with its key, in order, and at least one. */
  lemma {:induction false} GroupByContents<T>(items: seq<T>, key: T -> string)
    ensures forall i :: 0 <= i < |GroupBy(items, key)| ==>
      GroupBy(items, key)[i].1 == KeyedItems(items, key, GroupBy(items, key)[i].0) && |GroupBy(items, key)[i].1| >= 1
  {
    if |items| > 0 {
      var prefix := items[..|items| - 1];
      var x := items[|items| - 1];
      var groups := GroupBy(prefix, key);
      GroupByContents(prefix, key);
      var r := GroupBy(items, key);
      assert r == AddToGroup(groups, key(x), x);
      match GroupIndex(groups, key(x))
      case Some(j) =>
        assert r == groups[j := (key(x), groups[j].1 + [x])];
        forall i | 0 <= i < |r|
          ensures r[i].1 == KeyedItems(items, key, r[i].0) && |r[i].1| >= 1
        {
          var k := r[i].0;
          assert KeyedItems(items, key, k) == KeyedItems(prefix, key, k) + (if key(x) == k then [x] else []);
          if i != j {
            assert groups[i].0 != groups[j].0;
            assert r[i] == groups[i];
          }
        }
      case None =>
        KeyedNone(prefix, key, key(x), groups);
        assert r == groups + [(key(x), [x])];
        forall i | 0 <= i < |r|
          ensures r[i].1 == KeyedItems(items, key, r[i].0) && |r[i].1| >= 1
        {
          var k := r[i].0;
          assert KeyedItems(items, key, k) == KeyedItems(prefix, key, k) + (if key(x) == k then [x] else []);
          if i < |groups| {
            assert r[i] == groups[i];
            assert groups[i].0 != key(x);
            assert groups[i].1 == KeyedItems(prefix, key, groups[i].0);
          } else {
            assert r[i] == (key(x), [x]);
            assert KeyedItems(prefix, key, key(x)) == [];
          }
        }
    }
  }

  /** A key no item has selects nothing. */
  lemma {:induction false} KeyedNone<T>(items: seq<T>, key: T -> string, k: string, groups: seq<(string, seq<T>)>)
    requires forall n :: 0 <= n < |items| ==> GroupIndex(groups, key(items[n])).Some?
    requires GroupIndex(groups, k).None?
    ensures KeyedItems(items, key, k) == []
  {
    if |items| > 0 {
      KeyedNone(items[..|items| - 1], key, k, groups);
    }
  }

  /** The groups holding at least `bound` items, in order (the dictionary comprehension). */
  function KeepGroups<T>(groups: seq<(string, seq<T>)>, bound: int): (r: seq<(string, seq<T>)>)
    ensures forall i :: 0 <= i < |r| ==> r[i] in groups && |r[i].1| >= bound
    ensures forall i :: 0 <= i < |groups| && |groups[i].1| >= bound ==> groups[i] in r
    ensures |r| <= |groups|
  {
    if |groups| == 0 then []
    else
      var last := groups[|groups| - 1];
      KeepGroups(groups[..|groups| - 1], bound) + (if |last.1| >= bound then [last] else [])
  }

  /** A group is kept as many times as the input holds it when it reaches the bound, and otherwise not at all. */
  lemma {:induction false} KeepGroupsCount<T>(groups: seq<(string, seq<T>)>, bound: int, g: (string, seq<T>))
    ensures multiset(KeepGroups(groups, bound))[g] == (if |g.1| >= bound then multiset(groups)[g] else 0)
  {
    if |groups| > 0 {
      var prefix, last := groups[..|groups| - 1], groups[|groups| - 1];
      KeepGroupsCount(prefix, bound, g);
      assert groups == prefix + [last];
      assert multiset(groups) == multiset(prefix) + multiset{last};
      var tail := if |last.1| >= bound then [last] else [];
      assert KeepGroups(groups, bound) == KeepGroups(prefix, bound) + tail;
      assert multiset(KeepGroups(groups, bound)) == multiset(KeepGroups(prefix, bound)) + multiset(tail);
    }
  }

  /** The comprehension keeps the order of the groups: filtering a concatenation filters each part. */
  lemma {:induction false} KeepGroupsAppend<T>(a: seq<(string, seq<T>)>, b: seq<(string, seq<T>)>, bound: int)
    ensures KeepGroups(a + b, bound) == KeepGroups(a, bound) + KeepGroups(b, bound)
  {
    if |b| == 0 {
      assert a + b == a;
    } else {
      var last := b[|b| - 1];
      assert (a + b)[..|a + b| - 1] == a + b[..|b| - 1];
      KeepGroupsAppend(a, b[..|b| - 1], bound);
    }
  }

  /** A game's opponent, the key of `_initGamesAgainstPlayer`. */
  function OpponentOf(g: SingleGame): string {
    g.opponent
  }

  /** A game's time control text, the key of `_initGamesFilteredTimeControl`. */
  function TimeControlOf(g: SingleGame): string {
    g.GetTotalTimeControl()
  }

  /**
   * `_initGamesAgainstPlayer`: the games of the openings grouped by opponent,
   * one group per opponent holding exactly that opponent's games in order,
   * and a group kept exactly when it reaches `gamesBound`.
   */
  function InitGamesAgainstPlayer(gamesBound: int, openings: seq<OpeningData>): (r: seq<(string, seq<SingleGame>)>)
    reads set o | o in openings
    ensures DistinctKeys(r)
    ensures forall i :: 0 <= i < |r| ==>
      r[i].1 == KeyedItems(GamesOf(openings), OpponentOf, r[i].0) && |r[i].1| >= gamesBound
    ensures var games := GamesOf(openings);
      forall i, m :: 0 <= i < |r| && 0 <= m < |games| ==> (games[m] in r[i].1 <==> games[m].opponent == r[i].0)
    ensures var games := GamesOf(openings);
      forall m :: 0 <= m < |games| ==>
        (GroupIndex(r, games[m].opponent).Some? <==> |KeyedItems(games, OpponentOf, games[m].opponent)| >= gamesBound)
  {
    KeptGroups(GamesOf(openings), OpponentOf, gamesBound);
    KeepGroups(GroupBy(GamesOf(openings), OpponentOf), gamesBound)
  }

  /** `_initGamesFilteredTimeControl`: the same grouping by the time control text. */
  function InitGamesFilteredTimeControl(gamesBound: int, openings: seq<OpeningData>): (r: seq<(string, seq<SingleGame>)>)
    reads set o | o in openings
    ensures DistinctKeys(r)
    ensures forall i :: 0 <= i < |r| ==>
      r[i].1 == KeyedItems(GamesOf(openings), TimeControlOf, r[i].0) && |r[i].1| >= gamesBound
    ensures var games := GamesOf(openings);
      forall i, m :: 0 <= i < |r| && 0 <= m < |games| ==> (games[m] in r[i].1 <==> games[m].GetTotalTimeControl() == r[i].0)
    ensures var games := GamesOf(openings);
      forall m :: 0 <= m < |games| ==>
        (GroupIndex(r, games[m].GetTotalTimeControl()).Some? <==>
         |KeyedItems(games, TimeControlOf, games[m].GetTotalTimeControl())| >= gamesBound)
  {
    KeptGroups(GamesOf(openings), TimeControlOf, gamesBound);
    KeepGroups(GroupBy(GamesOf(openings), TimeControlOf), gamesBound)
  }

  /**
   * The groups kept by the bound: distinct keys, each group exactly the items
   * of its key and at least `bound` of them, and a key has a kept group
   * exactly when it has that many items.
   */
  lemma KeptGroups<T>(items: seq<T>, key: T -> string, bound: int)
    ensures var r := KeepGroups(GroupBy(items, key), bound);
      DistinctKeys(r) &&
      (forall i :: 0 <= i < |r| ==> r[i].1 == KeyedItems(items, key, r[i].0) && |r[i].1| >= bound) &&
      (forall i, x :: 0 <= i < |r| ==> (x in r[i].1 <==> x in items && key(x) == r[i].0)) &&
      (forall x :: x in items ==> (GroupIndex(r, key(x)).Some? <==> |KeyedItems(items, key, key(x))| >= bound))
  {
    var r := KeepGroups(GroupBy(items, key), bound);
    KeepGroupsDistinct(GroupBy(items, key), bound);
    forall i | 0 <= i < |r|
      ensures r[i].1 == KeyedItems(items, key, r[i].0)
      ensures forall x :: x in r[i].1 <==> x in items && key(x) == r[i].0
    {
      KeptGroup(items, key, bound, i);
    }
    forall x | x in items
      ensures GroupIndex(r, key(x)).Some? <==> |KeyedItems(items, key, key(x))| >= bound
    {
      KeptKey(items, key, bound, x);
    }
  }

  /** One kept group holds exactly the items of its key. */
  lemma KeptGroup<T>(items: seq<T>, key: T -> string, bound: int, i: nat)
    requires i < |KeepGroups(GroupBy(items, key), bound)|
    ensures var g := KeepGroups(GroupBy(items, key), bound)[i];
      g.1 == KeyedItems(items, key, g.0) && forall x :: x in g.1 <==> x in items && key(x) == g.0
  {
    var groups := GroupBy(items, key);
    var g := KeepGroups(groups, bound)[i];
    GroupByContents(items, key);
    var j :| 0 <= j < |groups| && groups[j] == g;
    KeyedIn(items, key, g.0);
  }

  /** An item's key has a kept group exactly when that key has `bound` items. */
  lemma KeptKey<T>(items: seq<T>, key: T -> string, bound: int, x: T)
    requires x in items
    ensures GroupIndex(KeepGroups(GroupBy(items, key), bound), key(x)).Some? <==> |KeyedItems(items, key, key(x))| >= bound
  {
    var groups := GroupBy(items, key);
    var r := KeepGroups(groups, bound);
    GroupByContents(items, key);
    var n :| 0 <= n < |items| && items[n] == x;
    var j := GroupIndex(groups, key(x)).value;
    if |KeyedItems(items, key, key(x))| >= bound {
      assert groups[j] in r;
      var i :| 0 <= i < |r| && r[i] == groups[j];
      assert r[i].0 == key(x);
    }
    if GroupIndex(r, key(x)).Some? {
      var i := GroupIndex(r, key(x)).value;
      var j' :| 0 <= j' < |groups| && groups[j'] == r[i];
      assert groups[j'].0 == groups[j].0;
    }
  }

  /** Keeping some of the groups keeps their keys distinct. */
  lemma {:induction false} KeepGroupsDistinct<T>(groups: seq<(string, seq<T>)>, bound: int)
    requires DistinctKeys(groups)
    ensures DistinctKeys(KeepGroups(groups, bound))
  {
    if |groups| > 0 {
      var prefix, last := groups[..|groups| - 1], groups[|groups| - 1];
      KeepGroupsDistinct(prefix, bound);
      var kept := KeepGroups(prefix, bound);
      forall i | 0 <= i < |kept|
        ensures kept[i].0 != last.0
      {
        var j :| 0 <= j < |prefix| && prefix[j] == kept[i];
        assert groups[j] == prefix[j];
      }
    }
  }

  /** The items of a key are exactly the items that have it. */
  lemma {:induction false} KeyedIn<T>(items: seq<T>, key: T -> string, k: string)
    ensures forall x :: x in KeyedItems(items, key, k) <==> x in items && key(x) == k
  {
    if |items| > 0 {
      var prefix := items[..|items| - 1];
      KeyedIn(prefix, key, k);
      assert items == prefix + [items[|items| - 1]];
    }
  }

  /** Every item lies in the group of its key and in no other. */
  lemma GroupByPartition<T>(items: seq<T>, key: T -> string, n: nat)
    requires n < |items|
    ensures var groups := GroupBy(items, key);
      var i := GroupIndex(groups, key(items[n]));
      i.Some? && items[n] in groups[i.value].1 &&
      forall j :: 0 <= j < |groups| && j != i.value ==> items[n] !in groups[j].1
  {
    var groups := GroupBy(items, key);
    GroupByContents(items, key);
    var i := GroupIndex(groups, key(items[n])).value;
    KeyedHas(items, key, items[n]);
    forall j | 0 <= j < |groups| && j != i
      ensures items[n] !in groups[j].1
    {
      if j < i {
        assert groups[j].0 != groups[i].0;
      } else {
        assert groups[i].0 != groups[j].0;
      }
      KeyedOnly(items, key, groups[j].0);
      assert groups[j].1 == KeyedItems(items, key, groups[j].0);
      assert groups[i].0 == key(items[n]);
    }
  }

  /** A group survives the bound exactly when it holds at least `bound` items. */
  lemma KeepGroupsMember<T>(groups: seq<(string, seq<T>)>, bound: int, i: nat)
    requires i < |groups|
    ensures groups[i] in KeepGroups(groups, bound) <==> |groups[i].1| >= bound
  {
  }

  lemma {:induction false} KeyedHas<T>(items: seq<T>, key: T -> string, x: T)
    requires x in items
    ensures x in KeyedItems(items, key, key(x))
  {
    if items[|items| - 1] != x {
      assert x in items[..|items| - 1];
      KeyedHas(items[..|items| - 1], key, x);
    }
  }

  lemma {:induction false} KeyedOnly<T>(items: seq<T>, key: T -> string, k: string)
    ensures forall x :: x in KeyedItems(items, key, k) ==> key(x) == k
  {
    if |items| > 0 {
      KeyedOnly(items[..|items| - 1], key, k);
    }
  }

  /** `_removeGamesUnderBound`: the openings with at least `bound` games, in order. */
  function RemoveGamesUnderBound(bound: int, openings: seq<OpeningData>): (r: seq<OpeningData>)
    reads set o | o in openings
    ensures forall i :: 0 <= i < |r| ==> r[i] in openings && r[i].totalGames >= bound
    ensures forall i :: 0 <= i < |openings| && openings[i].totalGames >= bound ==> openings[i] in r
    ensures |r| <= |openings|
  {
    if |openings| == 0 then []
    else
      var last := openings[|openings| - 1];
      RemoveGamesUnderBound(bound, openings[..|openings| - 1]) + (if last.totalGames >= bound then [last] else [])
  }

  /** An opening is kept as many times as the list holds it when it reaches the bound, and otherwise not at all. */
  lemma {:induction false} RemoveGamesUnderBoundCount(bound: int, openings: seq<OpeningData>, o: OpeningData)
    ensures multiset(RemoveGamesUnderBound(bound, openings))[o] == (if o.totalGames >= bound then multiset(openings)[o] else 0)
  {
    if |openings| > 0 {
      var prefix := openings[..|openings| - 1];
      RemoveGamesUnderBoundCount(bound, prefix, o);
      assert openings == prefix + [openings[|openings| - 1]];
    }
  }

  /** The comprehension keeps the order of the openings: filtering a concatenation filters each part. */
  lemma {:induction false} RemoveGamesUnderBoundAppend(bound: int, a: seq<OpeningData>, b: seq<OpeningData>)
    ensures RemoveGamesUnderBound(bound, a + b) == RemoveGamesUnderBound(bound, a) + RemoveGamesUnderBound(bound, b)
  {
    if |b| == 0 {
      assert a + b == a;
    } else {
      assert (a + b)[..|a + b| - 1] == a + b[..|b| - 1];
      RemoveGamesUnderBoundAppend(bound, a, b[..|b| - 1]);
    }
  }

  /** A list already over the bound is kept whole. */
  lemma {:induction false} RemoveGamesUnderBoundKeepsAll(bound: int, openings: seq<OpeningData>)
    requires forall i :: 0 <= i < |openings| ==> openings[i].totalGames >= bound
    ensures RemoveGamesUnderBound(bound, openings) == openings
  {
    if |openings| > 0 {
      var prefix := openings[..|openings| - 1];
      RemoveGamesUnderBoundKeepsAll(bound, prefix);
      assert prefix + [openings[|openings| - 1]] == openings;
    }
  }

  /** Applying the bound twice keeps what applying it once kept. */
  lemma RemoveGamesUnderBoundIdempotent(bound: int, openings: seq<OpeningData>)
    ensures RemoveGamesUnderBound(bound, RemoveGamesUnderBound(bound, openings)) == RemoveGamesUnderBound(bound, openings)
  {
    RemoveGamesUnderBoundKeepsAll(bound, RemoveGamesUnderBound(bound, openings));
  }

  // ---------------------------------------------------------------------
  // The most common openings
  // ---------------------------------------------------------------------

  /** `_checkIfMostCommon`: a higher score starts a new list, an equal one joins it. */
  function CheckIfMostCommon<T>(item: T, score: int, result: seq<T>, topScore: int): (r: (int, seq<T>))
    ensures score > topScore ==> r == (score, [item])
    ensures score == topScore ==> r == (topScore, result + [item])
    ensures score < topScore ==> r == (topScore, result)
  {
    if score > topScore then (score, [item])
    else if score == topScore then (topScore, result + [item])
    else (topScore, result)
  }

  /** The items whose score is `s`, in order. */
  function WithScore<T>(items: seq<T>, scores: seq<int>, s: int): seq<T>
    requires |scores| == |items|
  {
    if |items| == 0 then []
    else WithScore(items[..|items| - 1], scores[..|items| - 1], s) + (if scores[|items| - 1] == s then [items[|items| - 1]] else [])
  }

  /** The highest score, and nothing below 0 (the loop starts from a top score of 0). */
  function TopScore(scores: seq<int>): (m: int)
    ensures m >= 0 && forall i :: 0 <= i < |scores| ==> scores[i] <= m
    ensures m == 0 || exists i :: 0 <= i < |scores| && scores[i] == m
  {
    if |scores| == 0 then 0
    else
      var m := TopScore(scores[..|scores| - 1]);
      assert forall i :: 0 <= i < |scores| - 1 ==> scores[..|scores| - 1][i] == scores[i];
      if scores[|scores| - 1] > m then scores[|scores| - 1] else m
  }

  /** The fold of `_getMostCommon` over its first `n` items, from a top score of 0 and an empty list. */
  function MostCommonAfter<T>(items: seq<T>, scores: seq<int>, n: nat): (int, seq<T>)
    requires |scores| == |items| && n <= |items|
  {
    if n == 0 then (0, [])
    else
      var p := MostCommonAfter(items, scores, n - 1);
      CheckIfMostCommon(items[n - 1], scores[n - 1], p.1, p.0)
  }

  lemma {:induction false} WithScoreNone<T>(items: seq<T>, scores: seq<int>, s: int)
    requires |scores| == |items| && forall i :: 0 <= i < |scores| ==> scores[i] < s
    ensures WithScore(items, scores, s) == []
  {
    if |items| > 0 {
      WithScoreNone(items[..|items| - 1], scores[..|items| - 1], s);
    }
  }

  /**
   * `_getMostCommon` keeps exactly the items tied at the top score (or at 0,
   * when every score is lower), in their order.
   */
  lemma {:induction false} MostCommonTies<T>(items: seq<T>, scores: seq<int>, n: nat)
    requires |scores| == |items| && n <= |items|
    ensures MostCommonAfter(items, scores, n).0 == TopScore(scores[..n])
    ensures MostCommonAfter(items, scores, n).1 == WithScore(items[..n], scores[..n], TopScore(scores[..n]))
  {
    if n > 0 {
      MostCommonTies(items, scores, n - 1);
      var p := MostCommonAfter(items, scores, n - 1);
      assert items[..n][..n - 1] == items[..n - 1];
      assert scores[..n][..n - 1] == scores[..n - 1];
      if scores[n - 1] > p.0 {
        WithScoreNone(items[..n - 1], scores[..n - 1], scores[n - 1]);
      }
    }
  }

  /** `_sanitizeResult`: an empty list, the only element, or a tuple of two or more. */
  datatype Sanitized<T> = EmptyList | Single(item: T) | Many(items: seq<T>)

  function SanitizeResult<T>(result: seq<T>): (r: Sanitized<T>)
    ensures r.EmptyList? <==> |result| == 0
    ensures r.Single? <==> |result| == 1
    ensures r.Many? <==> |result| >= 2
  {
    if |result| == 0 then EmptyList else if |result| == 1 then Single(result[0]) else Many(result)
  }

  /** The elements a sanitised result stands for. */
  function Elements<T>(s: Sanitized<T>): seq<T> {
    match s
    case EmptyList => []
    case Single(x) => [x]
    case Many(xs) => xs
  }

  /** Sanitising loses nothing: the elements come back in order. */
  lemma SanitizeRoundTrip<T>(result: seq<T>)
    ensures Elements(SanitizeResult(result)) == result
  {
    if |result| == 1 {
      assert result == [result[0]];
    }
  }

  // ---------------------------------------------------------------------
  // Argument validation and metadata
  // ---------------------------------------------------------------------

  /** `_validateOpponent`: nothing, a string, or a tuple of strings; anything else is a ValueError. */
  function ValidateOpponent(opponent: PyValue): (r: Outcome)
    ensures r.Pass? <==> (opponent.PyNone? || opponent.PyStr? ||
                          (opponent.PyTuple? && forall i :: 0 <= i < |opponent.items| ==> opponent.items[i].PyStr?))
    ensures r.Fail? ==> r.error == ValueError
  {
    match opponent
    case PyNone => Pass
    case PyStr(_) => Pass
    case PyTuple(items) => if forall i :: 0 <= i < |items| ==> items[i].PyStr? then Pass else Fail(ValueError)
    case _ => Fail(ValueError)
  }

  /**
   * `_validateThenUpdateTakeTop`: the assertions that `takeTop` is an
   * integer (a `bool` is one) and not negative, then `MIN_VAL_FOR_TAKE_TOP`
   * replaced by `MAX_TAKE_TOP`.
   */
  function ValidateThenUpdateTakeTop(argValue: PyValue, q: QueryConstants): (r: Result<int>)
    ensures r.Ok? <==> IsInt(argValue) && IntValue(argValue) >= 0
    ensures r.Err? ==> r.error == AssertionError
    ensures r.Ok? && IntValue(argValue) == q.minTakeTop ==> r.value == q.maxTakeTop
    ensures r.Ok? && IntValue(argValue) != q.minTakeTop ==> r.value == IntValue(argValue)
  {
    if !IsInt(argValue) || IntValue(argValue) < 0 then Err(AssertionError)
    else if IntValue(argValue) == q.minTakeTop then Ok(q.maxTakeTop)
    else Ok(IntValue(argValue))
  }

  /** With the minimum 0 standing for "as many as possible", a validated `takeTop` is positive. */
  lemma TakeTopPositive(argValue: PyValue, q: QueryConstants)
    requires q.minTakeTop == 0 && q.maxTakeTop > 0
    requires ValidateThenUpdateTakeTop(argValue, q).Ok?
    ensures ValidateThenUpdateTakeTop(argValue, q).value >= 1
  {
  }

  /**
   * `_validateSetGap`: a false value (`None`, 0, an empty string, ...) or a
   * number below `MIN_VAL_FOR_SET_GAP` is a ValueError; any other non-number
   * cannot be compared with the minimum and raises TypeError.
   */
  function ValidateSetGap(setGap: PyValue, q: QueryConstants): (r: Outcome)
    ensures r.Pass? <==> Truthy(setGap) && IsNumber(setGap) && NumberValue(setGap) >= q.minSetGap as real
    ensures !Truthy(setGap) ==> r == Fail(ValueError)
    ensures Truthy(setGap) && !IsNumber(setGap) ==> r == Fail(TypeError)
    ensures r.Fail? && IsNumber(setGap) ==> r.error == ValueError
    ensures IsInt(setGap) ==> (r.Pass? <==> IntValue(setGap) != 0 && IntValue(setGap) >= q.minSetGap)
  {
    if !Truthy(setGap) then Fail(ValueError)
    else if !IsNumber(setGap) then Fail(TypeError)
    else if NumberValue(setGap) < q.minSetGap as real then Fail(ValueError)
    else Pass
  }

  /** Every item of the tuple is an `int`, a `bool` or a `float`. */
  predicate NumberTuple(result: PyValue) {
    result.PyTuple? && forall i :: 0 <= i < |result.items| ==> IsNumber(result.items[i])
  }

  /**
   * `_validateResult`: `None` and tuples of numbers pass (a tuple's items are
   * always members of it); a single number fails with TypeError, since
   * `result not in result` asks a number for membership; anything else is a
   * ValueError.
   */
  function ValidateResult(result: PyValue): (r: Outcome)
    ensures r.Pass? <==> result.PyNone? || NumberTuple(result)
    ensures IsNumber(result) ==> r == Fail(TypeError)
    ensures r.Fail? && !IsNumber(result) ==> r.error == ValueError
  {
    if result.PyNone? then Pass
    else if IsNumber(result) then Fail(TypeError)
    else if NumberTuple(result) then Pass
    else Fail(ValueError)
  }

  /** `_validateEloBound`: an integer of at least `MIN_ELO_BOUND`, by assertion. */
  function ValidateEloBound(argValue: PyValue, q: QueryConstants): (r: Outcome)
    ensures r.Pass? <==> IsInt(argValue) && IntValue(argValue) >= q.minEloBound
    ensures r.Fail? ==> r.error == AssertionError
  {
    if IsInt(argValue) && IntValue(argValue) >= q.minEloBound then Pass else Fail(AssertionError)
  }

  /** `_validateReverse` and `_validatePlotArg`: a `bool`, by assertion. */
  function ValidateBool(argValue: PyValue): (r: Outcome)
    ensures r.Pass? <==> argValue.PyBool?
    ensures r.Fail? ==> r.error == AssertionError
  {
    if argValue.PyBool? then Pass else Fail(AssertionError)
  }

  /**
   * `_extractMetaData`: the text after the first `para "` up to the next
   * quote (Python's `find` and slice rules, including their -1 results).
   */
  function ExtractMetaData(content: string, extractionPara: string): (r: string)
    ensures '"' !in r
    ensures exists a :: 0 <= a <= |content| && r <= content[a..]
  {
    var tag := extractionPara + " \"";
    var start := Find(content, tag, 0) + |tag|;
    var end := Find(content, "\"", start);
    var a, b := SliceBound(start, |content|), SliceBound(end, |content|);
    if a < b then
      forall i | a <= i < b
        ensures content[i] != '"'
      {
        assert !MatchAt(content, "\"", i);
        assert content[i..i + 1] == [content[i]];
      }
      assert content[a..b] <= content[a..];
      PySlice(content, start, end)
    else
      assert "" <= content[0..];
      PySlice(content, start, end)
  }

  /** A tag whose first occurrence is followed by a quoted value without quotes yields that value. */
  lemma ExtractMetaDataField(pre: string, para: string, v: string, post: string)
    requires Find(pre + (para + " \"") + v + "\"" + post, para + " \"", 0) == |pre|
    requires '"' !in v
    ensures ExtractMetaData(pre + (para + " \"") + v + "\"" + post, para) == v
  {
    var tag := para + " \"";
    var content := pre + tag + v + "\"" + post;
    var start := |pre| + |tag|;
    var close := start + |v|;
    assert content[close..close + 1] == "\"";
    assert MatchAt(content, "\"", close);
    forall i | start <= i < close
      ensures !MatchAt(content, "\"", i)
    {
      assert content[i] == v[i - start];
      assert content[i..i + 1] == [content[i]];
    }
    var end := Find(content, "\"", start);
    assert end == close;
    assert content[start..close] == v;
  }

  /**
   * `_isAtrophiedGame`: a game text without the flag both players moved is
   * atrophied (the message printed is left out); an empty flag makes
   * `partition` fail.
   */
  function IsAtrophiedGame(gamePgn: string, flag: string): (r: Result<bool>)
    ensures r.Err? <==> |flag| == 0
    ensures r.Err? ==> r.error == ValueError
    ensures r.Ok? ==> (r.value <==> forall i :: !MatchAt(gamePgn, flag, i))
  {
    if |flag| == 0 then Err(ValueError) else Ok(!Contains(gamePgn, flag))
  }
}
