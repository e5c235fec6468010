/**
 * Dynamically typed Python arguments.
 *
 * The query options and `numToChessResult` accept whatever the caller passes;
 * their behaviour depends on the run-time type of the argument, so the model
 * takes a value of this datatype where the Python code takes an untyped one.
 */
module PyValues {

  datatype PyValue =
    | PyNone
    | PyBool(b: bool)
    | PyInt(i: int)
    | PyFloat(r: real)
    | PyStr(s: string)
    | PyTuple(items: seq<PyValue>)
    | PyList(items: seq<PyValue>)

  /** `isinstance(v, int)`: `bool` is a subclass of `int`. */
  predicate IsInt(v: PyValue) {
    v.PyBool? || v.PyInt?
  }

  /** `isinstance(v, (float, int))`. */
  predicate IsNumber(v: PyValue) {
    IsInt(v) || v.PyFloat?
  }

  /** The numeric value of a number; `True` is 1 and `False` is 0. */
  function NumberValue(v: PyValue): real
    requires IsNumber(v)
  {
    match v
    case PyBool(b) => if b then 1.0 else 0.0
    case PyInt(i) => i as real
    case PyFloat(r) => r
  }

  /** The value of an `int` (or `bool`) argument. */
  function IntValue(v: PyValue): int
    requires IsInt(v)
  {
    match v
    case PyBool(b) => if b then 1 else 0
    case PyInt(i) => i
  }

  /** `hash(v)` succeeds: lists are unhashable, and so is a tuple holding one. */
  predicate Hashable(v: PyValue) {
    match v
    case PyList(_) => false
    case PyTuple(items) => forall i :: 0 <= i < |items| ==> Hashable(items[i])
    case _ => true
  }

  /** `bool(v)`: the truth value Python gives `v` in `not v`. */
  predicate Truthy(v: PyValue) {
    match v
    case PyNone => false
    case PyBool(b) => b
    case PyInt(i) => i != 0
    case PyFloat(r) => r != 0.0
    case PyStr(s) => |s| > 0
    case PyTuple(items) => |items| > 0
    case PyList(items) => |items| > 0
  }
}
