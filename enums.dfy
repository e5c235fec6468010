/**
 * The two enumerations of the library and the mappings between result
 * values, numbers and record keys.
 */
module Enums {
  import opened Wrappers
  import opened PyValues

  datatype ChessColor = White | Black

  datatype ChessResult = Loss | Draw | Win

  /**
   * The constants the enumerations are built from: the numeric value of each
   * result member and the record key naming each result.
   */
  datatype EnumConstants = EnumConstants(
    lossValue: real, drawValue: real, winValue: real,
    lossKey: string, drawKey: string, winKey: string)
  {
    /** Enum members need distinct values, and the record keys are distinct dictionary keys. */
    predicate Valid() {
      lossValue != drawValue && drawValue != winValue && lossValue != winValue &&
      lossKey != drawKey && drawKey != winKey && lossKey != winKey
    }

    /** `r.value`. */
    function Value(r: ChessResult): real {
      match r
      case Loss => lossValue
      case Draw => drawValue
      case Win => winValue
    }
  }

  /**
   * `chessResultToStr`: the record key of a result. `None` stands for an
   * argument that is not a `ChessResult` member.
   */
  function ChessResultToStr(result: Option<ChessResult>, k: EnumConstants): (r: Result<string>)
    ensures r.Err? <==> result.None?
    ensures r.Err? ==> r.error == ValueError
    ensures result == Some(Win) ==> r == Ok(k.winKey)
    ensures result == Some(Draw) ==> r == Ok(k.drawKey)
    ensures result == Some(Loss) ==> r == Ok(k.lossKey)
  {
    match result
    case Some(Win) => Ok(k.winKey)
    case Some(Draw) => Ok(k.drawKey)
    case Some(Loss) => Ok(k.lossKey)
    case None => Err(ValueError)
  }

  /** Distinct results get distinct record keys, so the key identifies the result. */
  lemma ChessResultToStrInjective(a: ChessResult, b: ChessResult, k: EnumConstants)
    requires k.Valid()
    requires ChessResultToStr(Some(a), k) == ChessResultToStr(Some(b), k)
    ensures a == b
  {
  }

  /** The lookup in the value-to-member dictionary; numbers compare by value across `bool`, `int` and `float`. */
  function Translate(v: PyValue, k: EnumConstants): (r: Option<ChessResult>)
    ensures r.Some? ==> IsNumber(v) && k.Value(r.value) == NumberValue(v)
    ensures IsNumber(v) && NumberValue(v) in {k.lossValue, k.drawValue, k.winValue} ==> r.Some?
  {
    if !IsNumber(v) then None
    else if NumberValue(v) == k.winValue then Some(Win)
    else if NumberValue(v) == k.drawValue then Some(Draw)
    else if NumberValue(v) == k.lossValue then Some(Loss)
    else None
  }

  /**
   * The members of the values in `items` that are member values, in order;
   * an unhashable item makes the membership test raise TypeError.
   */
  function FilterKeys(items: seq<PyValue>, k: EnumConstants): (r: Result<seq<ChessResult>>)
    ensures r.Ok? <==> forall i :: 0 <= i < |items| ==> Hashable(items[i])
    ensures r.Err? ==> r.error == TypeError
    ensures r.Ok? ==> |r.value| <= |items|
    ensures r.Ok? && (forall i :: 0 <= i < |items| ==> Translate(items[i], k).Some?) ==>
      |r.value| == |items| && forall i :: 0 <= i < |items| ==> Translate(items[i], k) == Some(r.value[i])
    ensures r.Ok? && (forall i :: 0 <= i < |items| ==> Translate(items[i], k).None?) ==> r.value == []
  {
    if |items| == 0 then Ok([])
    else if !Hashable(items[0]) then Err(TypeError)
    else
      var rest := FilterKeys(items[1..], k);
      assert forall i :: 1 <= i < |items| ==> items[i] == items[1..][i - 1];
      if rest.Err? then rest
      else if Translate(items[0], k).Some? then Ok([Translate(items[0], k).value] + rest.value)
      else rest
  }

  /**
   * `numToChessResult`: a number becomes a one-element tuple (KeyError when it
   * is no member value); an iterable keeps its member values in order and
   * drops the rest; `None` is not iterable.
   */
  function NumToChessResult(v: PyValue, k: EnumConstants): (r: Result<seq<ChessResult>>)
    ensures IsNumber(v) ==> (r.Ok? <==> NumberValue(v) in {k.lossValue, k.drawValue, k.winValue})
    ensures IsNumber(v) && r.Ok? ==> |r.value| == 1 && k.Value(r.value[0]) == NumberValue(v)
    ensures IsNumber(v) && r.Err? ==> r.error == KeyError
    ensures v.PyNone? ==> r == Err(TypeError)
    ensures v.PyStr? ==> r == Ok([])
  {
    if IsNumber(v) then
      match Translate(v, k)
      case Some(x) => Ok([x])
      case None => Err(KeyError)
    else
      match v
      case PyNone => Err(TypeError)
      case PyStr(_) => Ok([])
      case PyTuple(items) => FilterKeys(items, k)
      case PyList(items) => FilterKeys(items, k)
  }

  /** Every member is recovered from its own value. */
  lemma NumToChessResultRoundTrip(x: ChessResult, k: EnumConstants)
    requires k.Valid()
    ensures NumToChessResult(PyFloat(k.Value(x)), k) == Ok([x])
  {
  }

  /** The members `x` contributes: its own member, or none. */
  function Kept(x: PyValue, k: EnumConstants): seq<ChessResult> {
    if Translate(x, k).Some? then [Translate(x, k).value] else []
  }

  /** Filtering a list with a first item: that item's member, if any, then the rest filtered. */
  lemma FilterKeysCons(x: PyValue, rest: seq<PyValue>, k: EnumConstants)
    requires Hashable(x) && FilterKeys(rest, k).Ok?
    ensures FilterKeys([x] + rest, k) == Ok(Kept(x, k) + FilterKeys(rest, k).value)
  {
    var xs := [x] + rest;
    assert xs[0] == x && xs[1..] == rest;
    var r := FilterKeys(rest, k).value;
    if Translate(x, k).Some? {
      assert FilterKeys(xs, k) == Ok([Translate(x, k).value] + r);
    } else {
      assert FilterKeys(xs, k) == Ok(r);
      assert [] + r == r;
    }
  }

  /** A list filtered without error: its first item's member, if any, then the rest filtered. */
  lemma FilterKeysFirst(a: seq<PyValue>, k: EnumConstants)
    requires |a| > 0 && FilterKeys(a, k).Ok?
    ensures Hashable(a[0]) && FilterKeys(a[1..], k).Ok?
    ensures FilterKeys(a, k).value == Kept(a[0], k) + FilterKeys(a[1..], k).value
  {
    if Translate(a[0], k).None? {
      assert [] + FilterKeys(a[1..], k).value == FilterKeys(a[1..], k).value;
    }
  }

  /** A list filtered without error holds exactly the members some item names. */
  lemma {:induction false} FilterKeysMembers(items: seq<PyValue>, k: EnumConstants)
    requires FilterKeys(items, k).Ok?
    ensures forall x :: x in FilterKeys(items, k).value <==>
      exists i :: 0 <= i < |items| && Translate(items[i], k) == Some(x)
  {
    if |items| > 0 {
      FilterKeysFirst(items, k);
      FilterKeysMembers(items[1..], k);
      forall x
        ensures x in FilterKeys(items, k).value <==> exists i :: 0 <= i < |items| && Translate(items[i], k) == Some(x)
      {
        if exists i :: 0 <= i < |items| && Translate(items[i], k) == Some(x) {
          var i :| 0 <= i < |items| && Translate(items[i], k) == Some(x);
          if i > 0 {
            assert items[1..][i - 1] == items[i];
          }
        }
        if x in FilterKeys(items[1..], k).value {
          var j :| 0 <= j < |items[1..]| && Translate(items[1..][j], k) == Some(x);
          assert items[j + 1] == items[1..][j];
        }
      }
    }
  }

  /** Filtering a concatenation filters each part: the order of the input is kept. */
  lemma {:induction false} FilterKeysAppend(a: seq<PyValue>, b: seq<PyValue>, k: EnumConstants)
    requires FilterKeys(a, k).Ok? && FilterKeys(b, k).Ok?
    ensures FilterKeys(a + b, k) == Ok(FilterKeys(a, k).value + FilterKeys(b, k).value)
  {
    if |a| == 0 {
      assert a + b == b;
      assert [] + FilterKeys(b, k).value == FilterKeys(b, k).value;
    } else {
      FilterKeysFirst(a, k);
      FilterKeysAppend(a[1..], b, k);
      ConsAppend(a, b);
      FilterKeysCons(a[0], a[1..] + b, k);
      AppendAssoc(Kept(a[0], k), FilterKeys(a[1..], k).value, FilterKeys(b, k).value);
    }
  }

  /** A non-empty list is its first item in front of the rest. */
  lemma ConsAppend<T>(a: seq<T>, b: seq<T>)
    requires |a| > 0
    ensures [a[0]] + (a[1..] + b) == a + b
  {
  }

  /** Concatenation is associative. */
  lemma AppendAssoc<T>(x: seq<T>, y: seq<T>, z: seq<T>)
    ensures x + (y + z) == (x + y) + z
  {
  }

  /** One item is kept exactly when it is a member value. */
  lemma FilterKeysSingle(x: PyValue, k: EnumConstants)
    requires Hashable(x)
    ensures Translate(x, k).Some? ==> FilterKeys([x], k) == Ok([Translate(x, k).value])
    ensures Translate(x, k).None? ==> FilterKeys([x], k) == Ok([])
  {
    assert [x][1..] == [];
    assert FilterKeys([x][1..], k) == Ok([]);
    if Translate(x, k).Some? {
      assert [Translate(x, k).value] + [] == [Translate(x, k).value];
    }
  }
}
