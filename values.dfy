/** Option and Result, and the Python values that the robot code and the
    instruction extractor pass around. */
module Values {

  datatype Option<+T> = None | Some(value: T)

  datatype Result<+T, +E> = Success(value: T) | Failure(error: E)

  /** A Python value as a literal in the source can denote it.  A string
      carries what `float()` makes of it (None when `float()` raises), so that
      the model does not have to reimplement Python's number parser. */
  datatype Value =
    | Num(r: real)                            // an int or float literal
    | Bool(b: bool)                           // True / False
    | Text(s: string, asFloat: Option<real>)  // a str literal
    | Items(elems: seq<Value>)                // a tuple, list or set literal

  /** `float(v)`: None when Python raises. */
  function FloatOf(v: Value): (r: Option<real>)
    ensures v.Num? ==> r == Some(v.r)
    ensures v.Bool? ==> r.Some? && (r.value == 1.0 <==> v.b) && (r.value == 0.0 <==> !v.b)
    ensures v.Items? ==> r.None?
  {
    match v
    case Num(r) => Some(r)
    case Bool(b) => Some(if b then 1.0 else 0.0)
    case Text(_, f) => f
    case Items(_) => None
  }

  /** Python truthiness, as used by `x or default` and `if x:`. */
  predicate Truthy(v: Value): (b: bool)
    // a number or a bool is true exactly when its float() is not 0
    ensures v.Num? || v.Bool? ==> (b <==> FloatOf(v).value != 0.0)
    ensures v.Text? ==> (b <==> v.s != "")
  {
    match v
    case Num(r) => r != 0.0
    case Bool(b) => b
    case Text(s, _) => s != ""
    case Items(e) => e != []
  }

  /** `x or default` on an optional value. */
  function OrElse(x: Option<Value>, default: Value): (r: Value)
    ensures x.Some? && Truthy(x.value) ==> r == x.value
    ensures (x.None? || !Truthy(x.value)) ==> r == default
  {
    if x.Some? && Truthy(x.value) then x.value else default
  }

  /** `x in (None, "")`: the robot blocks' test for an argument left empty. */
  predicate Blank(x: Option<Value>): (b: bool)
    // a blank argument is falsy, so `x or default` gives the default for it
    ensures b ==> x.None? || !Truthy(x.value)
    ensures b && x.Some? ==> x.value.Text? && x.value.s == ""
  {
    x.None? || (x.value.Text? && x.value.s == "")
  }
}
