/** The decoded request body, as Python's `json` module hands it to the
    prediction handler, and the pieces of Python's built-in semantics the
    handler leans on: `isinstance(v, (int, float))`, comparison with zero,
    and the `in` operator. */
module Values {

  datatype Option<+T> = None | Some(value: T)

  /** A Python float as the JSON decoder can produce it. The decoder accepts
      the literals `NaN`, `Infinity` and `-Infinity`. `Finite(x)` is the
      decoded double itself, so it compares with zero as the real `x` does. A
      literal too large for a double decodes to an infinity, and a positive
      literal too small for one (`1e-400`) decodes to `Finite(0.0)`. Rounding
      of other literals to 53 bits of mantissa is not modelled. */
  datatype Double = Finite(value: real) | Inf(negative: bool) | NaN

  /** A decoded JSON value. `Bool` stays apart from `Int` because it is a
      distinct JSON literal, although Python treats it as an integer. */
  datatype Json =
    | Null
    | Bool(b: bool)
    | Int(i: int)
    | Real(d: Double)
    | Str(s: string)
    | Obj(fields: map<string, Json>)
    | Arr(items: seq<Json>)

  /** Python's `isinstance(v, (int, float))`. `bool` is a subclass of `int`,
      so both booleans pass. */
  predicate IsNumber(v: Json) {
    v.Bool? || v.Int? || v.Real?
  }

  /** Python's `v <= 0` on a number: `True` is 1, `False` is 0, and every
      comparison involving NaN is false. */
  predicate AtMostZero(v: Json)
    requires IsNumber(v)
  {
    match v
    case Bool(b) => !b
    case Int(i) => i <= 0
    case Real(d) =>
      match d
      case Finite(x) => x <= 0.0
      case Inf(negative) => negative
      case NaN => false
  }

  /** Python's `v > 0` on a number. */
  predicate AboveZero(v: Json)
    requires IsNumber(v)
  {
    match v
    case Bool(b) => b
    case Int(i) => i > 0
    case Real(d) =>
      match d
      case Finite(x) => x > 0.0
      case Inf(negative) => !negative
      case NaN => false
  }

  /** `t` occurs in `s` starting at index `i`. */
  predicate OccursAt(t: string, s: string, i: int) {
    0 <= i && i + |t| <= |s| && s[i..i + |t|] == t
  }

  /** Python's `t in s` on two strings, scanning `s` from the left. */
  predicate IsSubstring(t: string, s: string)
    decreases |s|
  {
    (|t| <= |s| && s[..|t|] == t) || (|s| > 0 && IsSubstring(t, s[1..]))
  }

  /** The left-to-right scan finds `t` exactly when `t` occurs at some index. */
  lemma {:induction false} SubstringOccurs(t: string, s: string)
    ensures IsSubstring(t, s) <==> exists i :: OccursAt(t, s, i)
    decreases |s|
  {
    if |t| <= |s| && s[..|t|] == t {
      assert s[0..0 + |t|] == s[..|t|];
      assert OccursAt(t, s, 0);
    } else if |s| == 0 {
    } else {
      SubstringOccurs(t, s[1..]);
      if IsSubstring(t, s[1..]) {
        var i :| OccursAt(t, s[1..], i);
        assert s[1..][i..i + |t|] == s[i + 1..i + 1 + |t|];
        assert OccursAt(t, s, i + 1);
      } else {
        forall i | 0 < i
          ensures !OccursAt(t, s, i)
        {
          assert OccursAt(t, s, i) ==> OccursAt(t, s[1..], i - 1) by {
            if OccursAt(t, s, i) {
              assert s[1..][i - 1..i - 1 + |t|] == s[i..i + |t|];
            }
          }
        }
      }
    }
  }

  /** Python's `key in data` for the decoded request body: key lookup in an
      object, element equality in an array, substring search in a string.
      Python raises TypeError for null, booleans and numbers, written None. */
  function Contains(data: Json, key: string): (r: Option<bool>)
    ensures r.None? <==> !(data.Obj? || data.Arr? || data.Str?)
    ensures data.Obj? ==> r == Some(key in data.fields)
    ensures data.Arr? ==> r == Some(exists i :: 0 <= i < |data.items| && data.items[i] == Str(key))
    ensures data.Str? ==> r == Some(exists i :: OccursAt(key, data.s, i))
  {
    match data
    case Obj(fields) => Some(key in fields)
    case Arr(items) => Some(Str(key) in items)
    case Str(s) =>
      SubstringOccurs(key, s);
      Some(IsSubstring(key, s))
    case _ => None
  }
}
