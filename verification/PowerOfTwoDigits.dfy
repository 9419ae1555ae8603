/**
  Reading digits of radix 2, 4, 8, 16 or 32 as a double (backend/runtime/
  num_parse.go): the value of any number of them, rounded once.
*/
module PowerOfTwoDigits {
  import opened Digits

  function Pow2(k: nat): (p: nat)
    ensures p >= 1
  {
    if k == 0 then 1 else 2 * Pow2(k - 1)
  }

  lemma {:induction false} PowSum(a: nat, b: nat)
    ensures Pow2(a + b) == Pow2(a) * Pow2(b)
    decreases a
  {
    if a > 0 {
      PowSum(a - 1, b);
      assert Pow2(a) * Pow2(b) == 2 * (Pow2(a - 1) * Pow2(b));
    }
  }

  lemma {:induction false} PowLess(a: nat, b: nat)
    requires a <= b
    ensures Pow2(a) <= Pow2(b)
    decreases b
  {
    if a < b { PowLess(a, b - 1); }
  }

  // v >> k, and the bits it drops.
  function Shr(v: nat, k: nat): nat { Div(v, Pow2(k)) }

  function Low(v: nat, k: nat): nat { Mod(v, Pow2(k)) }

  function Div(v: nat, d: nat): nat
    requires d > 0
  {
    v / d
  }

  function Mod(v: nat, d: nat): nat
    requires d > 0
  {
    v % d
  }

  function Times(a: nat, b: nat): nat { a * b }

  // Rounding to a double.

  // bits.Len64: how many bits n has.
  function Len(n: nat): (k: nat)
    ensures n < Pow2(k) && (n > 0 ==> k > 0 && Pow2(k - 1) <= n)
  {
    if n == 0 then 0 else LenHalf(n); Len(n / 2) + 1
  }

  lemma LenHalf(n: nat)
    requires n > 0
    ensures n / 2 < n
  {
  }

  lemma LenPast(v: nat)
    requires v >= Pow2(53)
    ensures Len(v) > 53
  {
    if Len(v) <= 53 { PowLess(Len(v), 53); }
  }

  // roundTiesToEven of IEEE 754, of an integer: its first 53 bits, and one more
  // if what follows them is over half, or half and they are odd.
  function Rounded(v: nat): nat {
    if v < Pow2(53) then v else LenPast(v); RoundedAt(v, Len(v) - 53)
  }

  function RoundedAt(v: nat, k: nat): nat
    requires k > 0
  {
    var q, r := Shr(v, k), Low(v, k);
    if r > Pow2(k - 1) || (r == Pow2(k - 1) && q % 2 == 1) then (q + 1) * Pow2(k) else q * Pow2(k)
  }

  // Digits.

  function Value(digits: seq<nat>, shift: nat): nat {
    if digits == [] then 0 else Value(digits[..|digits| - 1], shift) * Pow2(shift) + digits[|digits| - 1]
  }

  function DigitsOf(s: seq<int>): (d: seq<nat>)
    ensures |d| == |s| && forall k :: 0 <= k < |s| ==> d[k] == Digit(s[k])
  {
    seq(|s|, k requires 0 <= k < |s| => Digit(s[k]))
  }

  predicate AllDigits(s: seq<int>, radix: nat) { forall k :: 0 <= k < |s| ==> Digit(s[k]) < radix }

  // The longest run of digits s begins with.
  predicate IsRun(s: seq<int>, radix: nat, n: nat) {
    n <= |s| && AllDigits(s[..n], radix) && (n < |s| ==> Digit(s[n]) >= radix)
  }

  lemma ValueNext(s: seq<int>, i: nat, shift: nat)
    requires i < |s|
    ensures Value(DigitsOf(s[..i + 1]), shift) == Value(DigitsOf(s[..i]), shift) * Pow2(shift) + Digit(s[i])
  {
    assert DigitsOf(s[..i + 1])[..i] == DigitsOf(s[..i]);
  }

  lemma {:induction false} OneDigitMore(v: nat, e: nat, t: nat, w: nat, d: nat)
    ensures (v * e + t) * w + d == v * (e * w) + (t * w + d)
  {
    Distribute(v * e, t, w);
    assert v * e * w == v * (e * w);
  }

  // The weight of k digits.
  function Weight(shift: nat, k: nat): (w: nat)
    ensures w >= 1
  {
    if k == 0 then 1 else OneMoreDigit(Weight(shift, k - 1), Pow2(shift)); Weight(shift, k - 1) * Pow2(shift)
  }

  lemma OneMoreDigit(a: nat, b: nat)
    requires a >= 1 && b >= 1
    ensures a * b >= 1
  {
    MulLe(1, a, b);
  }

  // What the digits from i to n say.
  function Tail(s: seq<int>, i: nat, n: nat, shift: nat): nat
    requires i <= n <= |s|
    decreases n - i
  {
    if n == i then 0 else Tail(s, i, n - 1, shift) * Pow2(shift) + Digit(s[n - 1])
  }

  // The digits past the first i, as part of the whole.
  lemma {:induction false} ValueSplit(s: seq<int>, i: nat, n: nat, shift: nat)
    requires i <= n <= |s|
    ensures Value(DigitsOf(s[..n]), shift) == Value(DigitsOf(s[..i]), shift) * Weight(shift, n - i) + Tail(s, i, n, shift)
    decreases n - i
  {
    hide Digit, Value, DigitsOf, Pow2;
    if n > i {
      ValueSplit(s, i, n - 1, shift);
      ValueNext(s, n - 1, shift);
      OneDigitMore(Value(DigitsOf(s[..i]), shift), Weight(shift, n - 1 - i), Tail(s, i, n - 1, shift), Pow2(shift), Digit(s[n - 1]));
    }
  }

  lemma {:induction false} TailIsSmall(s: seq<int>, i: nat, n: nat, shift: nat)
    requires i <= n <= |s| && forall k :: i <= k < n ==> Digit(s[k]) < Pow2(shift)
    ensures Tail(s, i, n, shift) < Weight(shift, n - i)
    ensures Tail(s, i, n, shift) == 0 <==> forall k :: i <= k < n ==> Digit(s[k]) == 0
    decreases n - i
  {
    hide Digit, Pow2;
    if n > i {
      TailIsSmall(s, i, n - 1, shift);
      TailBound(Tail(s, i, n - 1, shift), Weight(shift, n - 1 - i), Pow2(shift), Digit(s[n - 1]));
    }
  }

  lemma {:induction false} TailBound(t: nat, e: nat, w: nat, d: nat)
    requires t < e && d < w
    ensures t * w + d < e * w
    ensures t * w + d == 0 <==> t == 0 && d == 0
  {
    MulLe(t + 1, e, w);
    Distribute(t, 1, w);
    if t > 0 { MulLe(1, t, w); }
  }

  lemma {:induction false} MulLe(a: nat, b: nat, c: nat)
    requires a <= b
    ensures a * c <= b * c
    decreases c
  {
    if c > 0 {
      MulLe(a, b, c - 1);
      assert a * c == a * (c - 1) + a && b * c == b * (c - 1) + b;
    }
  }

  lemma {:induction false} Distribute(a: nat, b: nat, c: nat)
    ensures (a + b) * c == a * c + b * c
  {
  }

  lemma {:induction false} WeightIsPow(shift: nat, k: nat)
    ensures Weight(shift, k) == Pow2(shift * k)
    decreases k
  {
    if k > 0 {
      WeightIsPow(shift, k - 1);
      assert shift * k == shift * (k - 1) + shift;
      PowSum(shift * (k - 1), shift);
    } else {
      assert shift * k == 0;
    }
  }

  // Division, by its result.

  lemma {:induction false} DivIs(v: nat, q: nat, r: nat, d: nat)
    requires v == q * d + r && r < d
    ensures v / d == q && v % d == r
  {
    var q', r' := v / d, v % d;
    assert v == q' * d + r';
    if q' < q { MulLe(q' + 1, q, d); Distribute(q', 1, d); }
    if q < q' { MulLe(q + 1, q', d); Distribute(q, 1, d); }
  }

  lemma {:induction false} LenIs(v: nat, n: nat)
    requires n > 0 && Pow2(n - 1) <= v < Pow2(n)
    ensures Len(v) == n
  {
    hide Len;
    if v == 0 { assert false; }
    if Len(v) < n { PowLess(Len(v), n - 1); }
    if n < Len(v) { PowLess(n, Len(v) - 1); }
  }

  // The first 53 bits of p, which has dropped more.
  lemma {:induction false} FirstBits(p: nat, dropped: nat)
    requires p >= Pow2(53) && dropped == Len(Shr(p, 53))
    ensures dropped > 0 && Pow2(52) <= Shr(p, dropped) < Pow2(53)
  {
    hide Pow2, Len;
    var top := Shr(p, 53);
    var d := Pow2(dropped);
    QuotientAtLeast(p, 1, Pow2(53));
    PowSum(53, dropped);
    PowSum(52, dropped);
    PowSum(53, dropped - 1);
    assert 53 + (dropped - 1) == 52 + dropped;
    QuotientBelow(p, d, Pow2(53));
    ProductBelow(p, top, Pow2(53), d);
    ProductAbove(p, top, Pow2(53), Pow2(dropped - 1));
    QuotientAtLeast(p, Pow2(52), d);
  }

  // p / b < a exactly when p < a * b.
  lemma {:induction false} QuotientBelow(p: nat, b: nat, a: nat)
    requires b > 0
    ensures p < a * b ==> p / b < a
  {
    if p / b >= a { MulLe(a, p / b, b); }
  }

  lemma {:induction false} QuotientAtLeast(p: nat, a: nat, b: nat)
    requires b > 0
    ensures a * b <= p ==> a <= p / b
  {
    if p / b < a { MulLe(p / b + 1, a, b); Distribute(p / b, 1, b); }
  }

  lemma {:induction false} ProductBelow(p: nat, top: nat, b: nat, d: nat)
    requires b > 0 && top == p / b
    ensures top < d ==> p < b * d
  {
    if top < d { MulLe(top + 1, d, b); Distribute(top, 1, b); }
  }

  lemma {:induction false} ProductAbove(p: nat, top: nat, b: nat, d: nat)
    requires b > 0 && top == p / b
    ensures d <= top ==> b * d <= p
  {
    if d <= top { MulLe(d, top, b); }
  }

  // Rounding v = p * 2^e + tail by the bits of p: what the code does.
  predicate RoundsUp(q: nat, bits: nat, middle: nat, zeroTail: bool) {
    bits > middle || (bits == middle && (q % 2 == 1 || !zeroTail))
  }

  lemma {:induction false} Parts(p: nat, dropped: nat, e: nat, tail: nat, v: nat)
    requires tail < Pow2(e) && v == p * Pow2(e) + tail
    ensures Shr(v, dropped + e) == Shr(p, dropped)
    ensures Low(v, dropped + e) == Low(p, dropped) * Pow2(e) + tail
  {
    hide Pow2;
    var w, d := Pow2(e), Pow2(dropped);
    var q, m := p / d, p % d;
    PowSum(dropped, e);
    TailBound(m, d, w, tail);
    OneDigitMore(q, d, m, w, tail);
    assert p == q * d + m;
    DivIs(v, q, m * w + tail, d * w);
  }

  lemma {:induction false} SameChoice(q: nat, m: nat, middle: nat, w: nat, tail: nat)
    requires tail < w
    ensures var r, half := m * w + tail, middle * w;
      (r > half || (r == half && q % 2 == 1)) <==> RoundsUp(q, m, middle, tail == 0)
  {
    if m > middle { MulLe(middle + 1, m, w); Distribute(middle, 1, w); }
    if m < middle { MulLe(m + 1, middle, w); Distribute(m, 1, w); }
  }

  lemma {:induction false} LenOf(v: nat, k: nat)
    requires Pow2(52) <= Shr(v, k) < Pow2(53)
    ensures Len(v) == 53 + k && v >= Pow2(53 + k - 1)
  {
    hide Pow2, Len;
    PowSum(52, k);
    PowSum(53, k);
    ProductAbove(v, Shr(v, k), Pow2(k), Pow2(52));
    ProductBelow(v, Shr(v, k), Pow2(k), Pow2(53));
    LenIs(v, 53 + k);
  }

  // What the code makes of the bits of p, e bits of the rest dropped.
  function RoundedFrom(p: nat, dropped: nat, e: nat, zeroTail: bool): nat
    requires dropped > 0
  {
    (if RoundsUp(Shr(p, dropped), Low(p, dropped), Pow2(dropped - 1), zeroTail) then Shr(p, dropped) + 1 else Shr(p, dropped))
      * Pow2(dropped + e)
  }

  lemma {:induction false} Rounds(p: nat, dropped: nat, e: nat, tail: nat, v: nat)
    requires p >= Pow2(53) && dropped == Len(Shr(p, 53)) && dropped > 0 && tail < Pow2(e) && v == p * Pow2(e) + tail
    ensures Rounded(v) == RoundedFrom(p, dropped, e, tail == 0)
  {
    hide Pow2, Len, RoundsUp, Shr, Low;
    var k := dropped + e;
    FirstBits(p, dropped);
    Parts(p, dropped, e, tail, v);
    LenOf(v, k);
    PowLess(53, 53 + k - 1);
    PowSum(dropped - 1, e);
    assert dropped - 1 + e == k - 1;
    SameChoice(Shr(p, dropped), Low(p, dropped), Pow2(dropped - 1), Pow2(e), tail);
  }

  // Rounded is to nearest.

  function Distance(a: nat, b: nat): nat { if a < b then b - a else a - b }

  lemma {:induction false} NearestMultiple(v: nat, d: nat, n: nat)
    requires d > 0
    ensures Distance(v, n * d) >= v % d || Distance(v, n * d) >= d - v % d
    ensures n <= v / d ==> Distance(v, n * d) >= v % d
    ensures n > v / d ==> Distance(v, n * d) >= d - v % d
  {
    var q, r := v / d, v % d;
    assert v == q * d + r;
    if n <= q { MulLe(n, q, d); } else { MulLe(q + 1, n, d); Distribute(q, 1, d); }
  }

  lemma {:induction false} RoundedDistance(v: nat, k: nat)
    requires k > 0
    ensures Distance(v, RoundedAt(v, k)) <= Low(v, k) && Distance(v, RoundedAt(v, k)) <= Pow2(k) - Low(v, k)
  {
    var q, r, d := Shr(v, k), Low(v, k), Pow2(k);
    assert v == q * d + r && d == 2 * Pow2(k - 1);
    Distribute(q, 1, d);
  }

  lemma {:induction false} CoarserIsMultiple(q: nat, j: nat, k: nat) returns (n: nat)
    requires k <= j
    ensures q * Pow2(j) == n * Pow2(k)
  {
    n := q * Pow2(j - k);
    PowSum(j - k, k);
    assert q * Pow2(j) == q * (Pow2(j - k) * Pow2(k)) == q * Pow2(j - k) * Pow2(k);
  }

  lemma {:induction false} FinerIsBelow(v: nat, k: nat, q: nat, j: nat)
    requires j < k && Pow2(52) <= Shr(v, k) && q < Pow2(53)
    ensures Distance(v, q * Pow2(j)) >= Low(v, k)
  {
    hide Pow2;
    MulLe(q, Pow2(53), Pow2(j));
    PowSum(53, j);
    PowSum(52, k);
    PowLess(53 + j, 52 + k);
    MulLe(Pow2(52), Shr(v, k), Pow2(k));
    assert v == Shr(v, k) * Pow2(k) + Low(v, k);
  }

  /** No integer of 53 bits, at any scale, is nearer. */
  lemma {:induction false} RoundedIsNearest(v: nat, q: nat, j: nat)
    requires q < Pow2(53)
    ensures Distance(v, Rounded(v)) <= Distance(v, Times(q, Pow2(j)))
  {
    hide Pow2, Len, RoundedAt, Low, Shr;
    if v >= Pow2(53) {
      LenPast(v);
      var k := Len(v) - 53;
      RoundedDistance(v, k);
      if j < k {
        BitsKept(v, k);
        FinerIsBelow(v, k, q, j);
      } else {
        var n := CoarserIsMultiple(q, j, k);
        NearestAt(v, k, n);
      }
    }
  }

  lemma {:induction false} NearestAt(v: nat, k: nat, n: nat)
    ensures Distance(v, n * Pow2(k)) >= Low(v, k) || Distance(v, n * Pow2(k)) >= Pow2(k) - Low(v, k)
  {
    NearestMultiple(v, Pow2(k), n);
  }

  lemma {:induction false} BitsKept(v: nat, k: nat)
    requires v >= Pow2(53) && k == Len(v) - 53
    ensures Pow2(52) <= Shr(v, k)
  {
    hide Pow2, Len;
    PowSum(52, k);
    assert 52 + k == Len(v) - 1;
    assert Pow2(Len(v) - 1) <= v by { LenPast(v); }
    QuotientAtLeast(v, Pow2(52), Pow2(k));
  }

  // The reader.

  lemma {:induction false} RunSoFar(s: seq<int>, radix: nat, i: nat)
    requires i < |s| && AllDigits(s[..i], radix) && Digit(s[i]) < radix
    ensures AllDigits(s[..i + 1], radix)
  {
  }

  lemma {:induction false} ValueOfTail(s: seq<int>, i: nat, n: nat, shift: nat, dropped: nat, p: nat, v: nat, zeroTail: bool)
    requires i <= n <= |s| && (forall k :: i <= k < n ==> Digit(s[k]) < Pow2(shift))
    requires p == Value(DigitsOf(s[..i]), shift) && v == Value(DigitsOf(s[..n]), shift)
    requires p >= Pow2(53) && dropped == Len(Shr(p, 53)) && dropped > 0
    requires zeroTail <==> forall k :: i <= k < n ==> s[k] == 0x30
    ensures Rounded(v) == RoundedFrom(p, dropped, Times(shift, n - i), zeroTail)
  {
    hide Pow2, Len, Value, DigitsOf, Shr, Low, RoundsUp, Rounded;
    ValueSplit(s, i, n, shift);
    TailIsSmall(s, i, n, shift);
    WeightIsPow(shift, n - i);
    assert forall k :: i <= k < n ==> (s[k] == 0x30 <==> Digit(s[k]) == 0);
    Rounds(p, dropped, shift * (n - i), Tail(s, i, n, shift), v);
  }

  lemma SmallRadix(shift: nat)
    requires 1 <= shift <= 5
    ensures 2 <= Pow2(shift) <= Pow2(5)
  {
    PowLess(1, shift);
    PowLess(shift, 5);
  }

  lemma NoDigits(s: seq<int>, shift: nat)
    ensures Value(DigitsOf(s[..0]), shift) == 0
  {
  }

  lemma {:induction false} OneZero(s: seq<int>, i: nat, shift: nat)
    requires i < |s| && s[i] == 0x30 && Value(DigitsOf(s[..i]), shift) == 0
    ensures Value(DigitsOf(s[..i + 1]), shift) == 0 && Digit(s[i]) == 0
  {
    ValueNext(s, i, shift);
  }

  /** Halfway between two doubles, the even one is taken: of those 2^k apart, a
      multiple of 2^(k + 1). */
  lemma {:induction false} TiesGoToEven(v: nat, k: nat, q: nat) returns (m: nat)
    requires v >= Pow2(53) && k + 53 == Len(v) && k > 0 && v == q * Pow2(k) + Pow2(k - 1)
    ensures Rounded(v) == m * Pow2(k + 1)
    ensures m * Pow2(k + 1) == q * Pow2(k) || m * Pow2(k + 1) == (q + 1) * Pow2(k)
  {
    hide Len, Pow2, Shr, Low;
    LenPast(v);
    HalfIsLow(v, k, q);
    var near := if q % 2 == 1 then q + 1 else q;
    assert Rounded(v) == near * Pow2(k);
    m := near / 2;
    EvenTimes(m, near, Pow2(k));
  }

  lemma HalfIsLow(v: nat, k: nat, q: nat)
    requires k > 0 && v == q * Pow2(k) + Pow2(k - 1)
    ensures Shr(v, k) == q && Low(v, k) == Pow2(k - 1) && Pow2(k + 1) == 2 * Pow2(k)
  {
    DivIs(v, q, Pow2(k - 1), Pow2(k));
  }

  lemma EvenTimes(m: nat, q: nat, p: nat)
    requires q == 2 * m
    ensures m * (2 * p) == q * p
  {
  }

  // The accumulator takes one digit more than 53 bits, and is an int64.
  lemma {:induction false} Fits(number: nat, d: nat, shift: nat)
    requires number < Pow2(53) && d < Pow2(shift) && shift <= 5
    ensures number * Pow2(shift) + d < Pow2(63)
  {
    hide Pow2;
    TailBound(number, Pow2(53), Pow2(shift), d);
    PowSum(53, shift);
    PowLess(53 + shift, 63);
  }

  // Past 53 bits: the ones that fit, and which way the rest rounds them.
  method ReadPast(s: seq<int>, i: nat, p: nat, shift: nat) returns (number: nat, exponent: nat, n: nat)
    requires i <= |s| && AllDigits(s[..i], Pow2(shift)) && p == Value(DigitsOf(s[..i]), shift) >= Pow2(53)
    ensures IsRun(s, Pow2(shift), n)
    ensures number <= Pow2(53) && number * Pow2(exponent) == Rounded(Value(DigitsOf(s[..n]), shift))
  {
    hide Pow2, Len, Value, DigitsOf, Shr, Low, Digit, Rounded;
    var dropped := Len(Shr(p, 53));
    FirstBits(p, dropped);
    var bits := Low(p, dropped);
    number := Shr(p, dropped);
    exponent := dropped;
    var zeroTail := true;
    n := i;
    while n < |s| && Digit(s[n]) < Pow2(shift)
      invariant i <= n <= |s| && AllDigits(s[..n], Pow2(shift))
      invariant forall k :: i <= k < n ==> Digit(s[k]) < Pow2(shift)
      invariant zeroTail <==> forall k :: i <= k < n ==> s[k] == 0x30
      invariant exponent == dropped + Times(shift, n - i)
    {
      RunSoFar(s, Pow2(shift), n);
      assert shift * (n + 1 - i) == shift * (n - i) + shift;
      zeroTail := zeroTail && s[n] == 0x30;
      exponent := exponent + shift;
      n := n + 1;
    }
    ValueOfTail(s, i, n, shift, dropped, p, Value(DigitsOf(s[..n]), shift), zeroTail);
    var middle := Pow2(dropped - 1);
    if bits > middle || (bits == middle && (number % 2 != 0 || !zeroTail)) {
      number := number + 1;
    }
  }

  /** The value of the digits, rounded once to 53 bits, as those and their
      scale, and how many digits there were. */
  method ReadDigits(s: seq<int>, shift: nat) returns (number: nat, exponent: nat, n: nat)
    requires 1 <= shift <= 5
    ensures IsRun(s, Pow2(shift), n)
    ensures number <= Pow2(53) && number * Pow2(exponent) == Rounded(Value(DigitsOf(s[..n]), shift))
  {
    hide Pow2, Len, Value, DigitsOf, Shr, Low, Digit, RoundedAt;
    var radix := Pow2(shift);
    SmallRadix(shift);
    NoDigits(s, shift);
    var i := 0;
    while i < |s| && s[i] == 0x30
      invariant i <= |s| && AllDigits(s[..i], radix)
      invariant Value(DigitsOf(s[..i]), shift) == 0
    {
      OneZero(s, i, shift);
      RunSoFar(s, radix, i);
      i := i + 1;
    }
    number, exponent := 0, 0;
    while i < |s|
      invariant i <= |s| && AllDigits(s[..i], radix)
      invariant number == Value(DigitsOf(s[..i]), shift) < Pow2(53)
    {
      var d := Digit(s[i]);
      if d >= radix { break; }
      ValueNext(s, i, shift);
      RunSoFar(s, radix, i);
      Fits(number, d, shift);
      number := number * radix + d;
      assert number < Pow2(63);
      i := i + 1;
      if number < Pow2(53) { continue; }
      number, exponent, n := ReadPast(s, i, number, shift);
      return;
    }
    n := i;
    PowZero();
  }

  lemma PowZero()
    ensures Pow2(0) == 1
  {
  }

  // A double that isn't negative, if it is whole.
  datatype Whole = Infinity | Exactly(v: nat)

  // math.Ldexp(number, exponent), of no more than 53 bits.
  function Ldexp(number: nat, exponent: nat): Whole {
    if number * Pow2(exponent) >= Pow2(1024) then Infinity else Exactly(number * Pow2(exponent))
  }

  /** numPow2Digits: the double nearest the value of the digits, a tie going to
      the even one, or Infinity past the largest, and how many there were. */
  method NumPow2Digits(s: seq<int>, shift: nat) returns (r: Whole, n: nat)
    requires 1 <= shift <= 5
    ensures IsRun(s, Pow2(shift), n)
    ensures var v := Rounded(Value(DigitsOf(s[..n]), shift)); r == if v >= Pow2(1024) then Infinity else Exactly(v)
  {
    hide Pow2, Rounded, Value, DigitsOf;
    var number, exponent;
    number, exponent, n := ReadDigits(s, shift);
    r := Ldexp(number, exponent);
  }
}
