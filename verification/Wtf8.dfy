/**
  Strings as the runtime holds them (backend/runtime/str.go, json_string.go):
  bytes, UTF-8 but for half a surrogate pair on its own, which is the three
  bytes UTF-8 would make of its code point. What a string means is its UTF-16
  code units.
*/
module Wtf8 {
  type byte = b: int | 0 <= b < 0x100
  type unit = u: int | 0 <= u < 0x1_0000
  type rune = r: int | 0 <= r < 0x11_0000

  type bytes = seq<byte>
  type units = seq<unit>

  const RUNE_ERROR: rune := 0xFFFD

  datatype Char = Char(r: rune, size: nat)

  predicate Cont(b: byte) { 0x80 <= b < 0xC0 }

  predicate High(r: rune) { 0xD800 <= r < 0xDC00 }

  predicate Low(r: rune) { 0xDC00 <= r < 0xE000 }

  // The code points of two, three and four bytes.
  function Bits2(b0: int, b1: int): int { (b0 - 0xC0) * 0x40 + (b1 - 0x80) }

  function Bits3(b0: int, b1: int, b2: int): int { (b0 - 0xE0) * 0x1000 + (b1 - 0x80) * 0x40 + (b2 - 0x80) }

  function Bits4(b0: int, b1: int, b2: int, b3: int): int {
    (b0 - 0xF0) * 0x4_0000 + (b1 - 0x80) * 0x1000 + (b2 - 0x80) * 0x40 + (b3 - 0x80)
  }

  predicate IsHalf(b0: byte, b1: byte, b2: byte) { b0 == 0xED && 0xA0 <= b1 <= 0xBF && Cont(b2) }

  function Half(b0: byte, b1: byte, b2: byte): rune
    requires IsHalf(b0, b1, b2)
  {
    Bits3(b0, b1, b2)
  }

  // utf8.DecodeRuneInString: a byte that begins no UTF-8 is U+FFFD, one long.
  function DecodeRune(s: bytes): (c: Char)
    requires s != []
    ensures 1 <= c.size <= |s|
  {
    if s[0] < 0x80 then Char(s[0], 1)
    else if 0xC2 <= s[0] < 0xE0 && |s| >= 2 && Cont(s[1]) then Char(Bits2(s[0], s[1]), 2)
    else if Lead3(s) && !(s[0] == 0xED && s[1] >= 0xA0) then Char(Bits3(s[0], s[1], s[2]), 3)
    else if Lead4(s) then Char(Bits4(s[0], s[1], s[2], s[3]), 4)
    else Char(RUNE_ERROR, 1)
  }

  predicate Lead3(s: bytes) {
    |s| >= 3 && 0xE0 <= s[0] < 0xF0 && Cont(s[1]) && Cont(s[2]) && (s[0] == 0xE0 ==> s[1] >= 0xA0)
  }

  predicate Lead4(s: bytes) {
    && |s| >= 4 && 0xF0 <= s[0] < 0xF5 && Cont(s[1]) && Cont(s[2]) && Cont(s[3])
    && (s[0] == 0xF0 ==> s[1] >= 0x90) && (s[0] == 0xF4 ==> s[1] < 0x90)
  }

  // utf8.Valid, which is section 4 of RFC 3629.
  predicate ValidUtf8(p: bytes)
    decreases |p|
  {
    p == [] || (DecodeRune(p) != Char(RUNE_ERROR, 1) && ValidUtf8(p[DecodeRune(p).size..]))
  }

  // char: the character s starts with.
  function First(s: bytes): (c: Char)
    requires s != []
    ensures 1 <= c.size <= |s|
  {
    if s[0] < 0x80 then Char(s[0], 1)
    else if |s| >= 3 && IsHalf(s[0], s[1], s[2]) then Char(Half(s[0], s[1], s[2]), 3)
    else DecodeRune(s)
  }

  // A byte that is neither UTF-8 nor of a half.
  predicate Stray(s: bytes)
    requires s != []
  {
    First(s) == Char(RUNE_ERROR, 1)
  }

  function UnitsOf(r: rune): units {
    if r < 0x1_0000 then [r] else [HighOf(r), LowOf(r)]
  }

  function HighOf(r: rune): unit
    requires r >= 0x1_0000
  {
    0xD800 + (r - 0x1_0000) / 0x400
  }

  function LowOf(r: rune): unit
    requires r >= 0x1_0000
  {
    0xDC00 + (r - 0x1_0000) % 0x400
  }

  function Pair(high: rune, low: rune): rune
    requires High(high) && Low(low)
  {
    0x1_0000 + (high - 0xD800) * 0x400 + (low - 0xDC00)
  }

  /** What s means. */
  function Units(s: bytes): (u: units)
    decreases |s|
  {
    if s == [] then [] else UnitsOf(First(s).r) + Units(s[First(s).size..])
  }

  // canonical: no stray byte, and no high half before a low one.
  predicate CanonicalAfter(s: bytes, high: bool)
    decreases |s|
  {
    s == [] || (!Stray(s) && !(high && Low(First(s).r)) && CanonicalAfter(s[First(s).size..], High(First(s).r)))
  }

  predicate Canonical(s: bytes) { CanonicalAfter(s, false) }

  // utf8.AppendRune, and appendHalf for a half.
  function Enc(r: rune): (b: bytes)
    ensures 1 <= |b| <= 4
  {
    if r < 0x80 then [r]
    else if r < 0x800 then [0xC0 + r / 0x40, 0x80 + r % 0x40]
    else if r < 0x1_0000 then [0xE0 + r / 0x1000, 0x80 + r / 0x40 % 0x40, 0x80 + r % 0x40]
    else [0xF0 + r / 0x4_0000, 0x80 + r / 0x1000 % 0x40, 0x80 + r / 0x40 % 0x40, 0x80 + r % 0x40]
  }

  lemma EncodedIsRead(r: rune, rest: bytes)
    ensures First(Enc(r) + rest) == Char(r, |Enc(r)|)
    ensures (Enc(r) + rest)[|Enc(r)|..] == rest
  {
    var s := Enc(r) + rest;
    if r < 0x80 {
    } else if r < 0x800 {
      assert s[0] == 0xC0 + r / 0x40 && s[1] == 0x80 + r % 0x40;
    } else if r < 0x1_0000 {
      Three(r);
      assert s[0] == 0xE0 + r / 0x1000 && s[1] == 0x80 + r / 0x40 % 0x40 && s[2] == 0x80 + r % 0x40;
    } else {
      Four(r);
      assert s[0] == 0xF0 + r / 0x4_0000 && s[1] == 0x80 + r / 0x1000 % 0x40;
      assert s[2] == 0x80 + r / 0x40 % 0x40 && s[3] == 0x80 + r % 0x40;
    }
  }

  lemma {:induction false} Three(r: rune)
    requires 0x800 <= r < 0x1_0000
    ensures r == r / 0x1000 * 0x1000 + r / 0x40 % 0x40 * 0x40 + r % 0x40
    ensures r / 0x1000 < 0x10 && (r / 0x1000 == 0 ==> r / 0x40 % 0x40 >= 0x20)
    ensures r / 0x1000 == 0xD && r / 0x40 % 0x40 >= 0x20 ==> 0xD800 <= r < 0xE000
  {
  }

  lemma {:induction false} Four(r: rune)
    requires 0x1_0000 <= r
    ensures r == r / 0x4_0000 * 0x4_0000 + r / 0x1000 % 0x40 * 0x1000 + r / 0x40 % 0x40 * 0x40 + r % 0x40
    ensures r / 0x4_0000 < 5 && (r / 0x4_0000 == 0 ==> r / 0x1000 % 0x40 >= 0x10)
    ensures r / 0x4_0000 == 4 ==> r / 0x1000 % 0x40 < 0x10
  {
  }

  lemma ReadIsEncoded(s: bytes)
    requires s != [] && !Stray(s)
    ensures s[..First(s).size] == Enc(First(s).r)
    ensures s == Enc(First(s).r) + s[First(s).size..]
  {
    var c := First(s);
    if c.size == 2 {
      assert c.r == Bits2(s[0], s[1]);
    } else if c.size == 3 {
      ReadThree(s[0], s[1], s[2]);
    } else if c.size == 4 {
      ReadFour(s[0], s[1], s[2], s[3]);
    }
  }

  lemma {:induction false} By40(r: int, q: int, rem: int)
    requires r == q * 0x40 + rem && 0 <= rem < 0x40
    ensures r / 0x40 == q && r % 0x40 == rem
  {
  }

  lemma {:induction false} By1000(r: int, q: int, rem: int)
    requires r == q * 0x1000 + rem && 0 <= rem < 0x1000
    ensures r / 0x1000 == q
  {
  }

  lemma {:induction false} By40000(r: int, q: int, rem: int)
    requires r == q * 0x4_0000 + rem && 0 <= rem < 0x4_0000
    ensures r / 0x4_0000 == q
  {
  }

  lemma {:induction false} ReadThree(a: int, b: int, c: int)
    requires 0xE0 <= a < 0xF0 && 0x80 <= b < 0xC0 && 0x80 <= c < 0xC0
    ensures var r := Bits3(a, b, c); 0xE0 + r / 0x1000 == a && 0x80 + r / 0x40 % 0x40 == b && 0x80 + r % 0x40 == c
  {
    var r := Bits3(a, b, c);
    By40(r, (a - 0xE0) * 0x40 + (b - 0x80), c - 0x80);
    By40(r / 0x40, a - 0xE0, b - 0x80);
    By1000(r, a - 0xE0, (b - 0x80) * 0x40 + (c - 0x80));
  }

  lemma {:induction false} ReadFour(a: int, b: int, c: int, d: int)
    requires 0xF0 <= a < 0xF5 && 0x80 <= b < 0xC0 && 0x80 <= c < 0xC0 && 0x80 <= d < 0xC0
    ensures var r := Bits4(a, b, c, d);
      0xF0 + r / 0x4_0000 == a && 0x80 + r / 0x1000 % 0x40 == b && 0x80 + r / 0x40 % 0x40 == c && 0x80 + r % 0x40 == d
  {
    var r := Bits4(a, b, c, d);
    var top := (a - 0xF0) * 0x40 + (b - 0x80);
    By40(r, top * 0x40 + (c - 0x80), d - 0x80);
    By40(r / 0x40, top, c - 0x80);
    By1000(r, top, (c - 0x80) * 0x40 + (d - 0x80));
    By40(r / 0x1000, a - 0xF0, b - 0x80);
    By40000(r, a - 0xF0, (b - 0x80) * 0x1000 + (c - 0x80) * 0x40 + (d - 0x80));
  }
}
