/**
  toFixed (backend/runtime/num_fixed.go): the exact value of a double, rounded
  half up, by way of a formatter that rounds half to even.
*/
module ToFixed {
  import Floats
  import opened PowerOfTwoDigits

  // Decimal text, in ASCII.
  type text = seq<int>

  const POINT := 0x2E
  const ZERO := 0x30
  const NINE := 0x39

  // v in decimal, in at least width digits.
  function Decimal(v: nat, width: nat): (s: text)
    ensures |s| >= width
    decreases v + width
  {
    if v == 0 && width == 0 then []
    else Decimal(v / 10, if width > 0 then width - 1 else 0) + [ZERO + v % 10]
  }

  // digits with a point before the last n of them.
  function Pointed(digits: text, n: nat): text
    requires n <= |digits|
  {
    if n == 0 then digits else digits[..|digits| - n] + [POINT] + digits[|digits| - n..]
  }

  // v / 10^n, to n places.
  function Format(v: nat, n: nat): text { Pointed(Decimal(v, n + 1), n) }

  function Pow10(n: nat): (p: nat)
    ensures p >= 1
  {
    if n == 0 then 1 else 10 * Pow10(n - 1)
  }

  // A finite double that isn't negative: mant / 2^scale, mant of 53 bits.
  datatype Double = Double(mant: nat, scale: int)

  function Num(x: Double): nat { if x.scale >= 0 then x.mant else Times(x.mant, Pow2(-x.scale)) }

  function Den(x: Double): (d: nat)
    ensures d >= 1
  {
    if x.scale >= 0 then Pow2(x.scale) else 1
  }

  // num / den, rounded to an integer: half to even, and half up.
  function HalfEven(num: nat, den: nat): nat
    requires den >= 1
  {
    var q, r := Div(num, den), Mod(num, den);
    if 2 * r > den || (2 * r == den && q % 2 == 1) then q + 1 else q
  }

  function HalfUp(num: nat, den: nat): nat
    requires den >= 1
  {
    Div(2 * num + den, 2 * den)
  }

  lemma {:induction false} HalfUpIs(num: nat, den: nat)
    requires den >= 1
    ensures HalfUp(num, den) == if 2 * Mod(num, den) >= den then Div(num, den) + 1 else Div(num, den)
  {
    var q, r := Div(num, den), Mod(num, den);
    assert num == q * den + r;
    if 2 * r >= den {
      Distribute(q, 1, 2 * den);
      assert 2 * num + den == (q + 1) * (2 * den) + (2 * r - den);
      DivIs(2 * num + den, q + 1, 2 * r - den, 2 * den);
    } else {
      assert 2 * num + den == q * (2 * den) + (2 * r + den);
      DivIs(2 * num + den, q, 2 * r + den, 2 * den);
    }
  }

  /** The two roundings disagree only on a tie. */
  lemma {:induction false} AgreeButOnTies(num: nat, den: nat)
    requires den >= 1 && 2 * Mod(num, den) != den
    ensures HalfEven(num, den) == HalfUp(num, den)
  {
    HalfUpIs(num, den);
  }

  // strconv.FormatFloat(x, 'f', n, 64), which is exact.
  function FormatFloat(x: Double, n: nat): text { Format(HalfEven(Times(Num(x), Pow10(n)), Den(x)), n) }

  // numFixedTie.

  function TrailingZeros(m: nat): nat
    requires m > 0
  {
    if m % 2 == 1 then 0 else 1 + TrailingZeros(m / 2)
  }

  predicate FixedTie(x: Double, n: nat) { x.mant != 0 && x.scale - TrailingZeros(x.mant) == n + 1 }

  predicate IsTie(x: Double, n: nat) { 2 * Mod(Times(Num(x), Pow10(n)), Den(x)) == Den(x) }

  function Odd(m: nat): (o: nat)
    requires m > 0
    ensures o % 2 == 1
  {
    if m % 2 == 1 then m else Odd(m / 2)
  }

  function Pow5(n: nat): (p: nat)
    ensures p % 2 == 1
  {
    if n == 0 then 1 else 5 * Pow5(n - 1)
  }

  lemma {:induction false} TenIsFiveTwos(n: nat)
    ensures Pow10(n) == Pow5(n) * Pow2(n)
    decreases n
  {
    if n > 0 {
      TenIsFiveTwos(n - 1);
      assert Pow5(n) * Pow2(n) == 10 * (Pow5(n - 1) * Pow2(n - 1));
    }
  }

  lemma {:induction false} OddByOdd(a: nat, b: nat)
    requires a % 2 == 1 && b % 2 == 1
    ensures a * b % 2 == 1
  {
    var c, d := a / 2, b / 2;
    assert a == 2 * c + 1 && b == 2 * d + 1;
    assert a * b == 2 * (2 * c * d + c + d) + 1;
  }

  // a * 2^i.
  function Doubled(a: nat, i: nat): nat { if i == 0 then a else 2 * Doubled(a, i - 1) }

  lemma {:induction false} DoubledIs(a: nat, i: nat)
    ensures Doubled(a, i) == a * Pow2(i)
    decreases i
  {
    if i > 0 {
      DoubledIs(a, i - 1);
      assert a * (2 * Pow2(i - 1)) == 2 * (a * Pow2(i - 1));
    }
  }

  lemma {:induction false} OddDoubled(m: nat)
    requires m > 0
    ensures m == Doubled(Odd(m), TrailingZeros(m))
    decreases m
  {
    if m % 2 == 0 { OddDoubled(m / 2); }
  }

  lemma {:induction false} SameOddPart(a: nat, i: nat, b: nat, j: nat)
    requires a % 2 == 1 && b % 2 == 1 && Doubled(a, i) == Doubled(b, j)
    ensures i == j && a == b
    decreases i + j
  {
    if i > 0 && j > 0 { SameOddPart(a, i - 1, b, j - 1); }
  }

  // mant * 10^n is an odd number of 2^(zeros + n).
  lemma {:induction false} ScaledOddPart(m: nat, n: nat) returns (o: nat)
    requires m > 0
    ensures o % 2 == 1 && Times(m, Pow10(n)) == Doubled(o, TrailingZeros(m) + n)
  {
    hide Pow2, Pow5, Pow10, Odd, TrailingZeros;
    o := Odd(m) * Pow5(n);
    OddDoubled(m);
    DoubledIs(Odd(m), TrailingZeros(m));
    TenIsFiveTwos(n);
    OddByOdd(Odd(m), Pow5(n));
    PowSum(TrailingZeros(m), n);
    DoubledIs(o, TrailingZeros(m) + n);
    Swap(Odd(m), Pow2(TrailingZeros(m)), Pow5(n), Pow2(n));
  }

  lemma {:induction false} Swap(a: nat, b: nat, c: nat, d: nat)
    ensures (a * b) * (c * d) == (a * c) * (b * d)
  {
    assert (a * b) * (c * d) == a * b * c * d;
    assert (a * c) * (b * d) == a * c * b * d;
    assert a * b * c == a * c * b;
  }

  lemma {:induction false} TwiceQ(q: nat, h: nat)
    ensures (2 * q + 1) * h == q * (2 * h) + h
  {
    Distribute(2 * q, 1, h);
    assert 2 * q * h == q * (2 * h);
  }

  // Half of a power of two over: an odd number of the halves.
  lemma {:induction false} HalfOver(v: nat, k: nat) returns (q: nat)
    requires k > 0 && 2 * Mod(v, Pow2(k)) == Pow2(k)
    ensures v == Doubled(2 * q + 1, k - 1)
  {
    hide Doubled;
    q := Div(v, Pow2(k));
    DoubledIs(2 * q + 1, k - 1);
    TwiceQ(q, Pow2(k - 1));
    assert v == q * Pow2(k) + Mod(v, Pow2(k));
  }

  lemma {:induction false} OddIsHalfOver(v: nat, k: nat, q: nat)
    requires k > 0 && v == Doubled(2 * q + 1, k - 1)
    ensures 2 * Mod(v, Pow2(k)) == Pow2(k)
  {
    hide Doubled;
    DoubledIs(2 * q + 1, k - 1);
    TwiceQ(q, Pow2(k - 1));
    DivIs(v, q, Pow2(k - 1), Pow2(k));
  }

  /** numFixedTie holds exactly when x * 10^n lies halfway between two integers. */
  lemma {:induction false} TieIsHalfway(x: Double, n: nat)
    ensures FixedTie(x, n) <==> IsTie(x, n)
  {
    hide TrailingZeros, Pow10, Doubled, Pow2, Times;
    if x.mant == 0 || x.scale <= 0 {
      NoTie(x, n);
    } else {
      var v := Times(x.mant, Pow10(n));
      var o := ScaledOddPart(x.mant, n);
      if IsTie(x, n) {
        var q := HalfOver(v, x.scale);
        SameOddPart(o, TrailingZeros(x.mant) + n, 2 * q + 1, x.scale - 1);
      }
      if FixedTie(x, n) { OddIsHalfOver(v, x.scale, o / 2); }
    }
  }

  lemma {:induction false} NoTie(x: Double, n: nat)
    requires x.mant == 0 || x.scale <= 0
    ensures !FixedTie(x, n) && !IsTie(x, n)
  {
    if x.scale <= 0 {
      assert Den(x) == 1;
    } else {
      assert Times(0, Pow10(n)) == 0;
      DivIs(0, 0, 0, Den(x));
    }
  }

  // Rounding the text up.

  // The last place gains one, carrying through nines and through the point.
  function Up(b: text): text
    decreases |b|
  {
    if b == [] then [ZERO + 1]
    else
      var first, last := b[..|b| - 1], b[|b| - 1];
      if last == POINT then Up(first) + [POINT]
      else if last == NINE then Up(first) + [ZERO]
      else first + [last + 1]
  }

  lemma {:induction false} UpOf(first: text, last: int)
    ensures Up(first + [last]) ==
      if last == POINT then Up(first) + [POINT] else if last == NINE then Up(first) + [ZERO] else first + [last + 1]
  {
    assert (first + [last])[..|first|] == first;
  }

  predicate AllDigitChars(s: text) { forall k :: 0 <= k < |s| ==> ZERO <= s[k] <= NINE }

  lemma {:induction false} DecimalDigits(v: nat, width: nat)
    ensures AllDigitChars(Decimal(v, width))
    decreases v + width
  {
    if v != 0 || width != 0 { DecimalDigits(v / 10, if width > 0 then width - 1 else 0); }
  }

  lemma {:induction false} NextLast(v: nat)
    ensures v % 10 == 9 ==> (v + 1) / 10 == v / 10 + 1 && (v + 1) % 10 == 0
    ensures v % 10 != 9 ==> (v + 1) / 10 == v / 10 && (v + 1) % 10 == v % 10 + 1
  {
  }

  /** Up adds one. */
  lemma {:induction false} UpAddsOne(v: nat, width: nat)
    ensures Up(Decimal(v, width)) == Decimal(v + 1, width)
    decreases v + width
  {
    hide Up;
    if v == 0 && width == 0 {
      assert Up([]) == [ZERO + 1] by { UpOfNothing(); }
      assert Decimal(1, 0) == Decimal(0, 0) + [ZERO + 1];
    } else {
      var w := if width > 0 then width - 1 else 0;
      UpOf(Decimal(v / 10, w), ZERO + v % 10);
      NextLast(v);
      if v % 10 == 9 { UpAddsOne(v / 10, w); }
    }
  }

  lemma UpOfNothing()
    ensures Up([]) == [ZERO + 1]
  {
  }

  // The point stays where it is, counted from the end.
  lemma {:induction false} UpKeepsPoint(a: text, t: text) returns (u: text, w: text)
    requires AllDigitChars(t)
    ensures |w| == |t| && Up(a + t) == u + w && Up(a + [POINT] + t) == u + [POINT] + w
    decreases |t|
  {
    hide Up;
    if t == [] {
      assert a + t == a && a + [POINT] + t == a + [POINT];
      UpOf(a, POINT);
      u, w := Up(a), [];
      assert u + w == u && u + [POINT] + w == u + [POINT];
    } else {
      var n := |t| - 1;
      var t', c := t[..n], t[n];
      assert a + t == (a + t') + [c] && a + [POINT] + t == (a + [POINT] + t') + [c];
      UpOf(a + t', c);
      UpOf(a + [POINT] + t', c);
      if c == NINE {
        var w';
        u, w' := UpKeepsPoint(a, t');
        w := w' + [ZERO];
        assert (u + w') + [ZERO] == u + w && (u + [POINT] + w') + [ZERO] == u + [POINT] + w;
      } else {
        u, w := a, t' + [c + 1];
        assert (a + t') + [c + 1] == u + w && (a + [POINT] + t') + [c + 1] == u + [POINT] + w;
      }
    }
  }

  lemma {:induction false} UpFormat(v: nat, n: nat)
    ensures Up(Format(v, n)) == Format(v + 1, n)
  {
    hide Up, Decimal;
    UpAddsOne(v, n + 1);
    if n > 0 {
      var d := Decimal(v, n + 1);
      DecimalDigits(v, n + 1);
      var a, t := d[..|d| - n], d[|d| - n..];
      assert a + t == d;
      var u, w := UpKeepsPoint(a, t);
      var e := Decimal(v + 1, n + 1);
      assert e[..|e| - n] == u && e[|e| - n..] == w;
    }
  }

  // One turn of the carry, from the right.
  function Carried(b: text, i: int): text
    requires -1 <= i < |b|
  {
    Up(b[..i + 1]) + b[i + 1..]
  }

  lemma {:induction false} CarryStep(b: text, i: nat)
    requires i < |b|
    ensures b[i] == POINT ==> Carried(b, i) == Carried(b, i - 1)
    ensures b[i] == NINE ==> Carried(b, i) == Carried(b[i := ZERO], i - 1)
    ensures b[i] != POINT && b[i] != NINE ==> Carried(b, i) == b[i := b[i] + 1]
  {
    hide Up;
    var first, rest := b[..i], b[i + 1..];
    assert b[..i + 1] == first + [b[i]];
    UpOf(first, b[i]);
    assert b[i..] == [b[i]] + rest;
    var c := b[i := ZERO];
    assert c[..i] == first && c[i..] == [ZERO] + rest;
    if b[i] == POINT {
      assert Carried(b, i) == (Up(first) + [POINT]) + rest == Up(first) + ([POINT] + rest);
      assert Carried(b, i - 1) == Up(first) + b[i..];
    } else if b[i] == NINE {
      assert Carried(b, i) == (Up(first) + [ZERO]) + rest == Up(first) + ([ZERO] + rest);
      assert Carried(c, i - 1) == Up(first) + c[i..];
    } else {
      assert Carried(b, i) == (first + [b[i] + 1]) + rest;
    }
  }

  /** numRoundUpTie: the last digit goes, and the point with no places after it,
      and the place before it gains one. */
  method RoundUpTie(s: text, n: nat) returns (r: text)
    requires |s| >= 2
    ensures r == Up(if n == 0 then s[..|s| - 2] else s[..|s| - 1])
  {
    hide Up;
    var b := s[..|s| - 1];
    if n == 0 { b := b[..|b| - 1]; }
    ghost var start := b;
    assert start == if n == 0 then s[..|s| - 2] else s[..|s| - 1];
    var i := |b| - 1;
    assert b[..|b|] == b && Up(b) + [] == Up(b);
    while i >= 0
      invariant -1 <= i < |b|
      invariant Up(start) == Carried(b, i)
    {
      CarryStep(b, i);
      if b[i] == POINT {
        i := i - 1;
        continue;
      }
      if b[i] == NINE {
        b, i := b[i := ZERO], i - 1;
        continue;
      }
      return b[i := b[i] + 1];
    }
    UpOfNothing();
    assert b[0..] == b && b[..0] == [] && Carried(b, -1) == [ZERO + 1] + b;
    r := [ZERO + 1] + b;
  }

  // NumberToFixed.

  datatype Number = NaN | Infinite(negative: bool) | Finite(negative: bool, abs: Double)

  // What toFixed gives: its text, NumberToString's, or a RangeError.
  datatype Fixed = RangeError | IsNaN | AsString | Text(negative: bool, s: text)

  // 1e21 and more.
  function TooLarge(x: Double): (large: bool)
    ensures large <==> Num(x) >= 1_000_000_000_000_000_000_000 * Den(x)
  {
    TenTo21();
    Num(x) >= Times(Pow10(21), Den(x))
  }

  lemma TenTo21()
    ensures Pow10(21) == 1_000_000_000_000_000_000_000
  {
    assert Pow10(3) == 1000;
    assert Pow10(6) == 1_000_000;
    assert Pow10(9) == 1_000_000_000;
    assert Pow10(12) == 1_000_000_000_000;
    assert Pow10(15) == 1_000_000_000_000_000;
    assert Pow10(18) == 1_000_000_000_000_000_000;
  }

  lemma {:induction false} TieText(num: nat, den: nat, n: nat)
    requires den >= 1 && 2 * Mod(Times(num, Pow10(n)), den) == den
    ensures var v := HalfEven(Times(num, Pow10(n + 1)), den);
      v / 10 + 1 == HalfUp(Times(num, Pow10(n)), den)
  {
    var p := Times(num, Pow10(n));
    var q, r := Div(p, den), Mod(p, den);
    assert p == q * den + r;
    assert Times(num, Pow10(n + 1)) == 10 * p by { TimesTen(num, Pow10(n)); }
    assert 10 * p == (10 * q + 5) * den by { TenTimes(q, den, r); }
    DivIs(10 * p, 10 * q + 5, 0, den);
    HalfUpIs(p, den);
  }

  lemma TimesTen(a: nat, b: nat)
    ensures a * (10 * b) == 10 * (a * b)
  {
  }

  lemma {:induction false} TenTimes(q: nat, den: nat, r: nat)
    requires 2 * r == den
    ensures 10 * (q * den + r) == (10 * q + 5) * den
  {
    Distribute(10 * q, 5, den);
    assert 10 * q * den == 10 * (q * den);
  }

  lemma {:induction false} TieEndsShort(v: nat, n: nat)
    ensures var s := Format(v, n + 1);
      |s| >= 2 && (if n == 0 then s[..|s| - 2] else s[..|s| - 1]) == Format(v / 10, n)
  {
    var d := Decimal(v, n + 2);
    var e := Decimal(v / 10, n + 1);
    assert d == e + [ZERO + v % 10];
    var s := Format(v, n + 1);
    assert d[..|d| - (n + 1)] == e[..|e| - n];
    if n == 0 {
      assert s == e + [POINT] + [ZERO + v % 10];
      assert s[..|s| - 2] == e;
    } else {
      assert d[|d| - (n + 1)..] == e[|e| - n..] + [ZERO + v % 10];
      assert s[..|s| - 1] == e[..|e| - n] + [POINT] + e[|e| - n..];
    }
  }

  // The digits asked for, truncated, with NaN none; the infinities are out of range.
  function Places(digits: Floats.Float): (n: int)
    ensures digits.NaN? ==> n == 0
    ensures digits.NegInf? || digits.PosInf? ==> !(0 <= n <= 100)
    ensures digits.Num? ==> if digits.v >= 0.0 then n as real <= digits.v < n as real + 1.0 else n as real - 1.0 < digits.v <= n as real
  {
    match digits
    case NaN => 0
    case NegInf => -1
    case PosInf => 101
    case Num(v) => Floats.Truncated(v)
  }

  // What the digits say.

  function Denoted(digits: text): int {
    if digits == [] then 0 else 10 * Denoted(digits[..|digits| - 1]) + (digits[|digits| - 1] - ZERO)
  }

  /** The text toFixed gives denotes the number it was made of. */
  lemma {:induction false} DecimalDenotes(v: nat, width: nat)
    ensures Denoted(Decimal(v, width)) == v
    decreases v + width
  {
    if v != 0 || width != 0 {
      var w := if width > 0 then width - 1 else 0;
      var first := Decimal(v / 10, w);
      assert (first + [ZERO + v % 10])[..|first|] == first;
      DecimalDenotes(v / 10, w);
    }
  }

  // n places after a point, if any, and before it no zero but the one alone;
  // without the point, v.
  predicate IsDecimal(s: text, v: int, n: nat) {
    && (if n == 0 then |s| >= 1 else |s| >= n + 2 && s[|s| - n - 1] == '.' as int)
    && var d := if n == 0 then s else s[..|s| - n - 1] + s[|s| - n..];
    && (forall k :: 0 <= k < |d| ==> '0' as int <= d[k] <= '9' as int)
    && (|d| > n + 1 ==> d[0] != '0' as int)
    && Denoted(d) == v
  }

  // v is num / den rounded to an integer, a half going up.
  predicate IsRounded(v: int, num: int, den: int) { 2 * num - den < 2 * den * v <= 2 * num + den }

  /** The text toFixed is to give for num / den, to n places. */
  ghost predicate IsFixed(s: text, num: nat, den: nat, n: nat) {
    exists v: int :: IsDecimal(s, v, n) && IsRounded(v, num * Pow10(n), den)
  }

  lemma {:induction false} NoNeedlessZero(v: nat, width: nat)
    requires |Decimal(v, width)| > width
    ensures Decimal(v, width)[0] != ZERO
    decreases v + width
  {
    if v != 0 || width != 0 {
      var w := if width > 0 then width - 1 else 0;
      var first := Decimal(v / 10, w);
      if |first| > w { NoNeedlessZero(v / 10, w); } else { assert width == 0 && first == []; NoDigitsIsZero(v / 10); }
    }
  }

  lemma {:induction false} NoDigitsIsZero(v: nat)
    ensures Decimal(v, 0) == [] ==> v == 0
  {
  }

  lemma {:induction false} FormatIsDecimal(v: nat, n: nat)
    ensures IsDecimal(Format(v, n), v, n)
  {
    hide Decimal, Denoted;
    var d := Decimal(v, n + 1);
    DecimalDigits(v, n + 1);
    DecimalDenotes(v, n + 1);
    if |d| > n + 1 { NoNeedlessZero(v, n + 1); }
    if n > 0 {
      var s := Format(v, n);
      assert s[..|s| - n - 1] == d[..|d| - n] && s[|s| - n..] == d[|d| - n..];
      assert s[..|s| - n - 1] + s[|s| - n..] == d;
    }
  }

  lemma {:induction false} HalfUpIsRounded(num: nat, den: nat)
    requires den >= 1
    ensures IsRounded(HalfUp(num, den), num, den)
  {
    hide HalfUp, IsRounded;
    var q, r := Div(num, den), Mod(num, den);
    HalfUpIs(num, den);
    assert num == q * den + r && r < den;
    Between(HalfUp(num, den), q, r, num, den);
  }

  lemma {:induction false} Between(v: nat, q: nat, r: nat, num: nat, den: nat)
    requires num == q * den + r && r < den && v == if 2 * r >= den then q + 1 else q
    ensures IsRounded(v, num, den)
  {
    assert 2 * den * q == 2 * (q * den);
    assert 2 * den * (q + 1) == 2 * den * q + 2 * den;
  }

  lemma {:induction false} FixedText(num: nat, den: nat, n: nat)
    requires den >= 1
    ensures IsFixed(Format(HalfUp(Times(num, Pow10(n)), den), n), num, den, n)
  {
    hide Format, HalfUp, Pow10, IsDecimal, IsRounded;
    var v := HalfUp(Times(num, Pow10(n)), den);
    FormatIsDecimal(v, n);
    HalfUpIsRounded(Times(num, Pow10(n)), den);
  }

  /** NumberToFixed: x * 10^n rounded half up, in decimal with n places. */
  method NumberToFixed(x: Number, digits: Floats.Float) returns (r: Fixed)
    ensures var n := Places(digits);
      r == if n < 0 || n > 100 then RangeError
      else if x.NaN? then IsNaN
      else if x.Infinite? || TooLarge(x.abs) then AsString
      else Text(x.negative && x.abs.mant != 0, Format(HalfUp(Times(Num(x.abs), Pow10(n)), Den(x.abs)), n))
    ensures r.Text? ==> x.Finite? && Places(digits) >= 0 && IsFixed(r.s, Num(x.abs), Den(x.abs), Places(digits))
  {
    hide Format, Up, HalfEven, HalfUp, TrailingZeros, IsFixed;
    var n := Places(digits);
    if n < 0 || n > 100 { return RangeError; }
    match x
    case NaN => return IsNaN;
    case Infinite(_) => return AsString;
    case Finite(negative, abs) =>
      if TooLarge(abs) { return AsString; }
      var s;
      TieIsHalfway(abs, n);
      if FixedTie(abs, n) {
        var v := HalfEven(Times(Num(abs), Pow10(n + 1)), Den(abs));
        TieEndsShort(v, n);
        s := RoundUpTie(FormatFloat(abs, n + 1), n);
        UpFormat(v / 10, n);
        TieText(Num(abs), Den(abs), n);
      } else {
        s := FormatFloat(abs, n);
        AgreeButOnTies(Times(Num(abs), Pow10(n)), Den(abs));
      }
      FixedText(Num(abs), Den(abs), n);
      r := Text(negative && abs.mant != 0, s); // x < 0, which -0 is not
  }
}
