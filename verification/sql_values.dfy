/** SQL values with NULL, and the operators the aggregate rewrite emits.  Numbers are exact reals.
    Text has no arithmetic; the binder rejects it, and here it reads as zero. */
module SqlValues {

  datatype Value = Null | Num(number: real) | Text(text: string)

  datatype Option<T> = None | Some(value: T)

  function Number(v: Value): real {
    if v.Num? then v.number else 0.0
  }

  function Truth(b: bool): Value {
    Num(if b then 1.0 else 0.0)
  }

  predicate IsTrue(v: Value) {
    v.Num? && v.number != 0.0
  }

  function Mul(a: Value, b: Value): Value {
    if a.Null? || b.Null? then Null else Num(Number(a) * Number(b))
  }

  function Sub(a: Value, b: Value): Value {
    if a.Null? || b.Null? then Null else Num(Number(a) - Number(b))
  }

  /** Division by zero gives NULL. */
  function Div(a: Value, b: Value): Value {
    if a.Null? || b.Null? || Number(b) == 0.0 then Null else Num(Number(a) / Number(b))
  }

  function Greater(a: Value, b: Value): Value {
    if a.Null? || b.Null? then Null else Truth(Number(a) > Number(b))
  }

  /** Square root, for a given root function; undefined on negative numbers, where it gives NULL. */
  function Sqrt(root: real -> real, a: Value): Value {
    if a.Null? || Number(a) < 0.0 then Null else Num(root(Number(a)))
  }
}
