/**
 Floating-point numbers as far as their special values go (IEEE 754-2019, sections 6.1, 6.2 and 7.3): the finite
 ones are reals without rounding and with one zero, which counts as positive when it divides.
 */
module Numbers {

  datatype Number = NotANumber | MinusInfinity | PlusInfinity | Finite(v: real) {

    /** -1, 0 or 1. */
    function Sign(): int
      requires !NotANumber?
    {
      match this
      case MinusInfinity => -1
      case PlusInfinity => 1
      case Finite(v) => if v < 0.0 then -1 else if v > 0.0 then 1 else 0
    }

    function Negated(): Number {
      match this
      case NotANumber => NotANumber
      case MinusInfinity => PlusInfinity
      case PlusInfinity => MinusInfinity
      case Finite(v) => Finite(-v)
    }

    function Absolute(): Number {
      if MinusInfinity? || (Finite? && v < 0.0) then Negated() else this
    }

    function Plus(o: Number): Number {
      if NotANumber? || o.NotANumber? then NotANumber
      else if Finite? && o.Finite? then Finite(v + o.v)
      else if Finite? then o
      else if o.Finite? || o == this then this
      else NotANumber
    }

    function Minus(o: Number): Number {
      Plus(o.Negated())
    }

    function Times(o: Number): Number {
      if NotANumber? || o.NotANumber? then NotANumber
      else if Finite? && o.Finite? then Finite(v * o.v)
      else Infinity(Sign() * o.Sign())
    }

    function Over(o: Number): Number {
      if NotANumber? || o.NotANumber? then NotANumber
      else if Finite? && o.Finite? then if o.v == 0.0 then Infinity(Sign()) else Finite(v / o.v)
      else if Finite? then Finite(0.0)
      else if o.Finite? then Infinity(if o.Sign() < 0 then -Sign() else Sign())
      else NotANumber
    }

    /** Ordered comparison, false on not-a-number. */
    predicate Less(o: Number) {
      match (this, o)
      case (NotANumber, _) => false
      case (_, NotANumber) => false
      case (MinusInfinity, _) => o != MinusInfinity
      case (_, PlusInfinity) => this != PlusInfinity
      case (Finite(a), Finite(b)) => a < b
      case (_, _) => false
    }

    predicate AtMost(o: Number) {
      Less(o) || (this == o && !NotANumber?)
    }

    /** What std::max returns, argument for argument. */
    function Max(o: Number): Number {
      if Less(o) then o else this
    }
  }

  /** The infinity of a sign; without a sign there is none. */
  function Infinity(sign: int): Number {
    if sign > 0 then PlusInfinity else if sign < 0 then MinusInfinity else NotANumber
  }
}
