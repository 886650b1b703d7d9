/**
 * JavaScript numbers as the calculator uses them, and the four operators.
 *
 * A number is an exact real or one of the three non-finite values a JavaScript
 * number can take. Rounding and the sign of zero are not modelled: arithmetic on
 * finite values is exact, and every zero is the positive one.
 */
module Numbers {

  datatype Num = Fin(value: real) | PosInf | NegInf | NaN

  /** The operators of the basic keypad; `previousOperator` holds one of them. */
  datatype Op = Add | Sub | Mul | Div

  const MinusSign: string := "\U{2212}"
  const TimesSign: string := "\U{00D7}"
  const DivideSign: string := "\U{00F7}"

  /** The symbol of an operator as it is shown on its button and written into the history. */
  function Symbol(o: Op): (r: string)
    ensures |r| == 1
  {
    match o
    case Add => "+"
    case Sub => MinusSign
    case Mul => TimesSign
    case Div => DivideSign
  }

  lemma SymbolsDistinct(o1: Op, o2: Op)
    ensures Symbol(o1) == Symbol(o2) <==> o1 == o2
  {
  }

  predicate IsInfinite(x: Num) {
    x.PosInf? || x.NegInf?
  }

  /** The sign of a number other than NaN: -1, 0 or 1. */
  function Sign(x: Num): (r: int)
    requires !x.NaN?
    ensures -1 <= r <= 1
    ensures r == 0 <==> x == Fin(0.0)
  {
    match x
    case Fin(v) => if v > 0.0 then 1 else if v < 0.0 then -1 else 0
    case PosInf => 1
    case NegInf => -1
  }

  /** The infinity of the given sign. */
  function Infinity(sign: int): Num {
    if sign < 0 then NegInf else PosInf
  }

  function Negate(x: Num): Num {
    match x
    case Fin(v) => Fin(-v)
    case PosInf => NegInf
    case NegInf => PosInf
    case NaN => NaN
  }

  function Sum(a: Num, b: Num): Num {
    if a.NaN? || b.NaN? then NaN
    else if a.Fin? && b.Fin? then Fin(a.value + b.value)
    else if IsInfinite(a) && IsInfinite(b) && a != b then NaN
    else if IsInfinite(a) then a
    else b
  }

  function Product(a: Num, b: Num): Num {
    if a.NaN? || b.NaN? then NaN
    else if a.Fin? && b.Fin? then Fin(a.value * b.value)
    else if Sign(a) == 0 || Sign(b) == 0 then NaN
    else Infinity(Sign(a) * Sign(b))
  }

  function Quotient(a: Num, b: Num): Num {
    if a.NaN? || b.NaN? then NaN
    else if IsInfinite(a) && IsInfinite(b) then NaN
    else if IsInfinite(b) then Fin(0.0)
    else if b.value == 0.0 then (if Sign(a) == 0 then NaN else Infinity(Sign(a)))
    else if IsInfinite(a) then Infinity(Sign(a) * Sign(b))
    else Fin(a.value / b.value)
  }

  /**
   * `a o b` as JavaScript evaluates it: exact on finite operands, except that
   * dividing by zero gives a non-finite value instead of failing.
   */
  function Apply(a: Num, o: Op, b: Num): (r: Num)
    ensures a.NaN? || b.NaN? ==> r.NaN?
    ensures a.Fin? && b.Fin? ==> (r.Fin? <==> !(o == Div && b.value == 0.0))
    ensures a.Fin? && b.Fin? && o == Add ==> r == Fin(a.value + b.value)
    ensures a.Fin? && b.Fin? && o == Sub ==> r == Fin(a.value - b.value)
    ensures a.Fin? && b.Fin? && o == Mul ==> r == Fin(a.value * b.value)
    ensures a.Fin? && b.Fin? && o == Div && b.value != 0.0 ==> r == Fin(a.value / b.value)
  {
    match o
    case Add => Sum(a, b)
    case Sub => Sum(a, Negate(b))
    case Mul => Product(a, b)
    case Div => Quotient(a, b)
  }

  /**
   * Division by zero follows IEEE 754: zero (or NaN) over zero is NaN, any other
   * dividend gives the infinity of its own sign.
   */
  lemma DivisionByZero(a: Num)
    ensures Apply(a, Div, Fin(0.0)).NaN? <==> (a.NaN? || a == Fin(0.0))
    ensures !a.NaN? && a != Fin(0.0) ==> Apply(a, Div, Fin(0.0)) == Infinity(Sign(a))
    ensures !Apply(a, Div, Fin(0.0)).Fin?
  {
  }

  /** Once a result is NaN every later operation keeps it NaN. */
  lemma NaNAbsorbs(o: Op, b: Num)
    ensures Apply(NaN, o, b) == NaN
  {
  }
}
