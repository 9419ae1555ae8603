/**
  What a character is worth as a digit (numDigit, backend/runtime/num_parse.go),
  and the hexadecimal digits.
*/
module Digits {
  function Digit(c: int): nat {
    if 0x30 <= c <= 0x39 then c - 0x30
    else if 0x61 <= c <= 0x7A then c - 0x61 + 10
    else if 0x41 <= c <= 0x5A then c - 0x41 + 10
    else 36
  }

  function UpperHex(d: int): (c: int)
    requires 0 <= d < 16
    ensures Digit(c) == d && 0x30 <= c <= 0x46
  {
    if d < 10 then 0x30 + d else 0x41 + (d - 10)
  }

  function LowerHex(d: int): (c: int)
    requires 0 <= d < 16
    ensures Digit(c) == d && 0x30 <= c <= 0x66
  {
    if d < 10 then 0x30 + d else 0x61 + (d - 10)
  }
}
