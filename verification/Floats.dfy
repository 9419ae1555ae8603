/**
  Numbers as IEEE 754 has them, rounding aside.
*/
module Floats {
  datatype Float = NaN | NegInf | PosInf | Num(v: real)

  // math.Trunc: the integer part, its sign kept.
  function Truncated(v: real): (t: int)
    ensures if v >= 0.0 then t as real <= v < t as real + 1.0 else t as real - 1.0 < v <= t as real
  {
    if v >= 0.0 then v.Floor else -(-v).Floor
  }
}
