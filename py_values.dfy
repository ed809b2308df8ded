/** Python scalar values as the dispatch layer sees them: device ids and
    attribute entries are ints, floats or strings, compared with Python's `==`
    (so `1 == 1.0`), and errors are the exceptions the layer lets escape. */
module PyValues {

  datatype Option<+T> = None | Some(value: T)

  /** The exceptions raised by the core, one constructor per cause. */
  datatype Error =
    | DeviceNotExist(model: string, idx: Scalar)  // KeyError of `_one_idx2uid`
    | NoneNotAllowed                              // KeyError of `get` with `allow_none=False`
    | TypeError                                   // unhashable or non-integer index, bad flatten
    | IndexError                                  // a position beyond the attribute store
    | NoAttribute(name: string)                   // AttributeError of a `getattr`
    | MissingKey(name: string)                    // KeyError of a `__dict__[...]` lookup
    | NotRegistered(name: string)                 // KeyError of `system.routines[...]`

  datatype Result<+T> = Ok(value: T) | Err(error: Error)

  /** A Python int, float or str. */
  datatype Scalar = Int(i: int) | Float(x: real) | Str(s: string)

  predicate IsIntegral(x: real) {
    x.Floor as real == x
  }

  /** The representative Python's hashing and `==` agree on: an integral float
      is the same dictionary key as the int of the same value. */
  function Canon(k: Scalar): (c: Scalar)
    ensures !c.Float? || !IsIntegral(c.x)
    ensures PyValueOf(c) == PyValueOf(k)
  {
    match k
    case Float(x) => if IsIntegral(x) then Int(x.Floor) else k
    case _ => k
  }

  /** The number or text a scalar stands for, whatever its Python type. */
  function PyValueOf(k: Scalar): (string, real)
  {
    match k
    case Int(i) => ("", i as real)
    case Float(x) => ("", x)
    case Str(s) => ("s" + s, 0.0)
  }

  /** `==` is equality of the value a scalar stands for. */
  lemma PyEqIsValueEquality(a: Scalar, b: Scalar)
    ensures PyEq(a, b) <==> PyValueOf(a) == PyValueOf(b)
  {
    if PyValueOf(a) == PyValueOf(b) {
      if a.Str? {
        assert |PyValueOf(b).0| > 0;
        assert a.s == ("s" + a.s)[1..] == ("s" + b.s)[1..] == b.s;
      }
    }
  }

  /** Python `==` between two scalars. */
  predicate PyEq(a: Scalar, b: Scalar) {
    Canon(a) == Canon(b)
  }

  /** Python `x in xs` on a list of scalars. */
  predicate PyIn(x: Scalar, xs: seq<Scalar>) {
    exists j :: 0 <= j < |xs| && PyEq(x, xs[j])
  }

  /** Python `int(x)` on a float: truncation toward zero. */
  function Trunc(x: real): (t: int)
    ensures x >= 0.0 ==> t as real <= x < t as real + 1.0
    ensures x < 0.0 ==> t as real - 1.0 < x <= t as real
  {
    if x >= 0.0 then x.Floor else -((-x).Floor)
  }

  /** `int(b) if isinstance(b, (int, float)) else b`. */
  function IntCast(b: Scalar): (c: Scalar)
    ensures c.Int? <==> !b.Str?
    ensures b.Str? ==> c == b
    ensures b.Float? ==> c == Int(Trunc(b.x))
  {
    match b
    case Float(x) => Int(Trunc(x))
    case _ => b
  }

  /** An id that `int()` does not move: a string, an int or an integral float. */
  predicate CastStable(b: Scalar) {
    !b.Float? || IsIntegral(b.x)
  }

  /** Casting keeps the dictionary key of every id that has no fractional part. */
  lemma CastKeepsKey(b: Scalar)
    requires CastStable(b)
    ensures PyEq(IntCast(b), b)
  {
    if b.Float? {
      assert Trunc(b.x) == b.x.Floor;
    }
  }

  /** A fractional float id is cast onto a different key: `int(x)` is the
      int toward zero, which no longer equals `x`. */
  lemma CastMovesFraction(x: real)
    requires !IsIntegral(x)
    ensures IntCast(Float(x)) == Int(Trunc(x))
    ensures !PyEq(IntCast(Float(x)), Float(x))
  {
    assert Canon(Float(x)) == Float(x);
  }

  /** Casting keeps the key of an id exactly when the id has no fractional
      part. */
  lemma CastKeepsKeyExactly(b: Scalar)
    ensures PyEq(IntCast(b), b) <==> CastStable(b)
  {
    if CastStable(b) {
      CastKeepsKey(b);
    } else {
      CastMovesFraction(b.x);
    }
  }
}
